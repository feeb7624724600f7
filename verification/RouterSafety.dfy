/** What every step of the router protocol keeps, and what therefore holds in every run. */
module RouterSafety {
  import opened Wrappers
  import opened Router

  // ---- the logs a run is measured against ----

  /** The MOs of one user that some channel accepted, in arrival order. */
  function AcceptedOf(os: seq<Outcome>, u: UserId): seq<Mo> {
    if os == [] then []
    else
      var o := os[|os| - 1];
      AcceptedOf(os[..|os| - 1], u) + (if o.accepted && o.mo.sender == u then [o.mo] else [])
  }

  /** What was sent to a user's dialogs, concatenated in creation order. */
  function SentTo(ds: seq<Dialog>, u: UserId): seq<Mo> {
    if ds == [] then []
    else
      var last := ds[|ds| - 1];
      SentTo(ds[..|ds| - 1], u) + (if last.user == u then last.sent else [])
  }

  function Arrivals(os: seq<Outcome>): seq<Mo> {
    seq(|os|, i requires 0 <= i < |os| => os[i].mo)
  }

  /** The MO the router loop has in hand, not yet accepted or dropped. */
  function InHand(pc: RouterPc): seq<Mo> {
    match pc
    case Routing(mo) => [mo]
    case Sending(mo, _, _) => [mo]
    case _ => []
  }

  /** The merged MT stream seen by one dialog. */
  function Project(ts: seq<Tagged>, d: DialogId): seq<Mt> {
    if ts == [] then []
    else
      var t := ts[|ts| - 1];
      Project(ts[..|ts| - 1], d) + (if t.dialog == d then [t.mt] else [])
  }

  function PendingOf(dialog: Dialog): seq<Mt> {
    if dialog.pending.Some? then [dialog.pending.value] else []
  }

  // ---- the invariant ----

  /** `d` is the most recently created dialog of `u`. */
  predicate Latest(ds: seq<Dialog>, u: UserId, d: DialogId) {
    d < |ds| && ds[d].user == u && forall e :: d < e < |ds| ==> ds[e].user != u
  }

  /** A route leads to its user's latest dialog, whose task has removed no route yet. */
  ghost predicate RoutesOk(s: State) {
    forall u :: u in s.routes ==>
      Latest(s.dialogs, u, s.routes[u]) && s.dialogs[s.routes[u]].Live() && !s.dialogs[s.routes[u]].idled
  }

  ghost predicate PcOk(s: State) {
    match s.pc
    case Sending(mo, d, isNew) =>
      Latest(s.dialogs, mo.sender, d) &&
      (isNew ==> s.dialogs[d].phase.Created? && s.dialogs[d].creator == mo && s.dialogs[d].sent == [] && !s.dialogs[d].channel.closed) &&
      (!isNew ==> !s.dialogs[d].phase.Created?)
    case Spawning(d) => d < |s.dialogs| && s.dialogs[d].phase.Created? && s.dialogs[d].sent == [s.dialogs[d].creator]
    case _ => true
  }

  /** The dialog `d` is still in the router loop's hands. */
  predicate Unspawned(pc: RouterPc, d: DialogId) {
    match pc
    case Sending(_, e, isNew) => isNew && e == d
    case Spawning(e) => e == d
    case _ => false
  }

  /** Facts about one dialog's channel and task that mention nothing outside it. */
  ghost predicate ChannelOk(dialog: Dialog) {
    && dialog.sent == dialog.consumed + dialog.channel.queue
    && (dialog.sent != [] ==> dialog.sent[0] == dialog.creator)
    && dialog.creator.sender == dialog.user
    && dialog.spawns == (if dialog.phase.Created? then 0 else 1)
    && (dialog.phase.Created? || dialog.phase.Serving? ==> !dialog.idled)
    && (dialog.phase.IdleUnlinked? || dialog.phase.Draining? ==> dialog.idled)
    && (dialog.phase.Created? ==> dialog.pending.None?)
    && (!dialog.Live() || dialog.phase.Ended? ==> dialog.channel.closed)
    && (!dialog.rxOpen ==> dialog.channel.closed)
  }

  /** Every reply is accepted, lost to a closed MT channel, or still being pushed. */
  ghost predicate RepliesOk(dialog: Dialog, mtClosed: bool) {
    && dialog.produced == dialog.accepted + dialog.lost + PendingOf(dialog)
    && (dialog.lost != [] ==> mtClosed)
  }

  /** Nobody will read the channel any more: its receiver is gone, or its idle timeout has struck. */
  predicate Abandoned(dialog: Dialog) {
    !dialog.rxOpen || dialog.idled
  }

  ghost predicate DialogsOk(s: State) {
    forall d :: 0 <= d < |s.dialogs| ==>
      ChannelOk(s.dialogs[d]) && RepliesOk(s.dialogs[d], s.mtClosed) &&
      (s.dialogs[d].phase.Created? <==> Unspawned(s.pc, d)) &&
      (s.dialogs[d].sent == [] ==> s.dialogs[d].phase.Created?) &&
      (s.dialogs[d].channel.closed ==> Abandoned(s.dialogs[d]) || s.pc.RoutesClosed? || s.pc.Finished?)
  }

  ghost predicate LogsOk(s: State) {
    && s.arrived == Arrivals(s.outcomes) + InHand(s.pc)
    && (forall u :: AcceptedOf(s.outcomes, u) == SentTo(s.dialogs, u))
    && forall i :: 0 <= i < |s.outcomes| ==>
         var o := s.outcomes[i];
         o.dialog < |s.dialogs| && s.dialogs[o.dialog].user == o.mo.sender &&
         (!o.accepted ==> s.dialogs[o.dialog].channel.closed)
  }

  ghost predicate MtsOk(s: State) {
    && |s.mtQueue| <= MT_CAPACITY
    && forall d :: 0 <= d ==>
         Project(s.delivered + s.mtQueue, d) == (if d < |s.dialogs| then s.dialogs[d].accepted else [])
  }

  ghost predicate Inv(s: State) {
    RoutesOk(s) && PcOk(s) && DialogsOk(s) && LogsOk(s) && MtsOk(s)
  }

  // ---- preservation, one conjunct at a time ----

  lemma {:induction false} SentToSame(ds: seq<Dialog>, ds': seq<Dialog>, u: UserId)
    requires |ds| == |ds'|
    requires forall d :: 0 <= d < |ds| ==> ds'[d].user == ds[d].user && ds'[d].sent == ds[d].sent
    ensures SentTo(ds', u) == SentTo(ds, u)
  {
    if ds == [] {
    } else {
      SentToSame(ds[..|ds| - 1], ds'[..|ds| - 1], u);
    }
  }

  /** Sending to a user's latest dialog appends to the user's whole log. */
  lemma {:induction false} SentToAppend(ds: seq<Dialog>, d: DialogId, mo: Mo, u: UserId)
    requires Latest(ds, mo.sender, d)
    ensures SentTo(ds[d := Accept(ds[d], mo)], u) == SentTo(ds, u) + (if mo.sender == u then [mo] else [])
  {
    var ds' := ds[d := Accept(ds[d], mo)];
    var n := |ds| - 1;
    if d == n {
      assert ds'[..n] == ds[..n];
    } else {
      assert ds'[..n] == ds[..n][d := Accept(ds[d], mo)];
      SentToAppend(ds[..n], d, mo, u);
      assert ds'[n] == ds[n] && ds[n].user != mo.sender;
    }
  }

  /** What every dialog keeps when an event does not create it: who it belongs to. */
  ghost predicate SameUsers(ds: seq<Dialog>, ds': seq<Dialog>) {
    |ds| == |ds'| && forall d :: 0 <= d < |ds| ==> ds'[d].user == ds[d].user
  }

  lemma LatestSame(ds: seq<Dialog>, ds': seq<Dialog>)
    requires SameUsers(ds, ds')
    ensures forall u: UserId, d: DialogId :: Latest(ds, u, d) == Latest(ds', u, d)
  {
    forall u: UserId, d: DialogId
      ensures Latest(ds, u, d) == Latest(ds', u, d)
    {
      if Latest(ds, u, d) {
        assert forall e :: d < e < |ds'| ==> ds'[e].user == ds[e].user;
      }
      if Latest(ds', u, d) {
        assert forall e :: d < e < |ds| ==> ds'[e].user == ds[e].user;
      }
    }
  }

  lemma ActKeepsChannelOk(dialog: Dialog, act: Action, hasRoute: bool, mtClosed: bool)
    requires ChannelOk(dialog) && CanAct(dialog, act) && !dialog.phase.Created?
    ensures ChannelOk(Act(dialog, act, hasRoute, mtClosed))
  {
    if act.Consume? {
      var q := dialog.channel.queue;
      assert dialog.consumed + q == dialog.consumed + [q[0]] + q[1..];
    }
  }

  lemma ActKeepsIdentity(dialog: Dialog, act: Action, hasRoute: bool, mtClosed: bool)
    requires ChannelOk(dialog) && CanAct(dialog, act) && !dialog.phase.Created?
    ensures
      var after := Act(dialog, act, hasRoute, mtClosed);
      && !after.phase.Created?
      && after.user == dialog.user && after.creator == dialog.creator && after.sent == dialog.sent
      && (dialog.channel.closed ==> after.channel.closed)
      && (Abandoned(dialog) ==> Abandoned(after))
      && (after.channel.closed && !dialog.channel.closed ==> Abandoned(after))
  {
  }

  lemma ActKeepsRepliesOk(dialog: Dialog, act: Action, hasRoute: bool, mtClosed: bool)
    requires RepliesOk(dialog, mtClosed) && CanAct(dialog, act)
    ensures RepliesOk(Act(dialog, act, hasRoute, mtClosed), mtClosed)
  {
    if act.SendMt? {
      var mt := dialog.pending.value;
      assert dialog.accepted + dialog.lost + [mt] == dialog.accepted + (dialog.lost + [mt]);
      assert dialog.lost == [] ==> dialog.accepted + dialog.lost + [mt] == dialog.accepted + [mt] + dialog.lost;
    }
  }

  /** A task's own step: it either keeps the map, or removes its user's entry. */
  lemma RoutesOkTask(s: State, d: DialogId, act: Action)
    requires RoutesOk(s) && d < |s.dialogs| && CanAct(s.dialogs[d], act)
    ensures RoutesOk(TaskStep(s, d, act))
  {
    var s' := TaskStep(s, d, act);
    LatestSame(s.dialogs, s'.dialogs);
    forall u | u in s'.routes
      ensures Latest(s'.dialogs, u, s'.routes[u]) && s'.dialogs[s'.routes[u]].Live() && !s'.dialogs[s'.routes[u]].idled
    {
      assert u in s.routes && s'.routes[u] == s.routes[u];
      assert Latest(s.dialogs, u, s.routes[u]);
      assert Latest(s'.dialogs, u, s.routes[u]);
    }
  }

  lemma RoutesOkLookup(s: State)
    requires RoutesOk(s) && s.pc.Routing?
    ensures RoutesOk(LookupStep(s))
  {
    var s' := LookupStep(s);
    forall u | u in s'.routes
      ensures Latest(s'.dialogs, u, s'.routes[u]) && s'.dialogs[s'.routes[u]].Live() && !s'.dialogs[s'.routes[u]].idled
    {
      if u in s.routes {
        assert Latest(s.dialogs, u, s.routes[u]);
      }
    }
  }

  /** Any step that keeps the map and every dialog's standing keeps the routes. */
  lemma RoutesOkKeep(s: State, s': State)
    requires RoutesOk(s) && s'.routes == s.routes && SameUsers(s.dialogs, s'.dialogs)
    requires forall d :: 0 <= d < |s.dialogs| ==> s'.dialogs[d].Live() == s.dialogs[d].Live() && s'.dialogs[d].idled == s.dialogs[d].idled
    ensures RoutesOk(s')
  {
    LatestSame(s.dialogs, s'.dialogs);
  }

  lemma RoutesOkStep(s: State, e: Event)
    requires RoutesOk(s) && PcOk(s) && Enabled(s, e)
    ensures RoutesOk(Next(s, e))
  {
    match e
    case Lookup => RoutesOkLookup(s);
    case Task(d, act) => RoutesOkTask(s, d, act);
    case _ => RoutesOkKeep(s, Next(s, e));
  }

  lemma PcOkTask(s: State, d: DialogId, act: Action)
    requires PcOk(s) && DialogsOk(s) && Enabled(s, Task(d, act))
    ensures PcOk(TaskStep(s, d, act))
  {
    var s' := TaskStep(s, d, act);
    LatestSame(s.dialogs, s'.dialogs);
    if !s.dialogs[d].phase.Created? {
      ActKeepsIdentity(s.dialogs[d], act, s.dialogs[d].user in s.routes, s.mtClosed);
    }
  }

  lemma PcOkLookup(s: State)
    requires RoutesOk(s) && DialogsOk(s) && s.pc.Routing?
    ensures PcOk(LookupStep(s))
  {
    var s' := LookupStep(s);
    if s.pc.mo.sender in s.routes {
      assert Latest(s.dialogs, s.pc.mo.sender, s.routes[s.pc.mo.sender]);
      assert !Unspawned(s.pc, s.routes[s.pc.mo.sender]);
    }
  }

  lemma PcOkStep(s: State, e: Event)
    requires RoutesOk(s) && PcOk(s) && DialogsOk(s) && Enabled(s, e)
    ensures PcOk(Next(s, e))
  {
    match e
    case Lookup => PcOkLookup(s);
    case Task(d, act) => PcOkTask(s, d, act);
    case _ =>
  }

  lemma DialogsOkTask(s: State, d: DialogId, act: Action)
    requires DialogsOk(s) && Enabled(s, Task(d, act))
    ensures DialogsOk(TaskStep(s, d, act))
  {
    ActKeepsChannelOk(s.dialogs[d], act, s.dialogs[d].user in s.routes, s.mtClosed);
    ActKeepsIdentity(s.dialogs[d], act, s.dialogs[d].user in s.routes, s.mtClosed);
    ActKeepsRepliesOk(s.dialogs[d], act, s.dialogs[d].user in s.routes, s.mtClosed);
  }

  lemma SendKeepsChannelOk(dialog: Dialog, mo: Mo, mtClosed: bool)
    requires ChannelOk(dialog) && RepliesOk(dialog, mtClosed) && (dialog.sent == [] ==> mo == dialog.creator)
    ensures ChannelOk(Accept(dialog, mo)) && RepliesOk(Accept(dialog, mo), mtClosed)
    ensures ChannelOk(CloseChannel(dialog)) && RepliesOk(CloseChannel(dialog), mtClosed)
  {
    var q := dialog.channel.queue;
    assert dialog.consumed + q + [mo] == dialog.consumed + (q + [mo]);
  }

  lemma DialogsOkSend(s: State)
    requires PcOk(s) && DialogsOk(s) && Enabled(s, Send)
    ensures DialogsOk(SendStep(s))
  {
    SendKeepsChannelOk(s.dialogs[s.pc.dialog], s.pc.mo, s.mtClosed);
  }

  lemma DialogsOkLookup(s: State)
    requires RoutesOk(s) && DialogsOk(s) && s.pc.Routing?
    ensures DialogsOk(LookupStep(s))
  {
    if s.pc.mo.sender in s.routes {
      assert Latest(s.dialogs, s.pc.mo.sender, s.routes[s.pc.mo.sender]);
    }
  }

  lemma DialogsOkSpawn(s: State)
    requires PcOk(s) && DialogsOk(s) && Enabled(s, Spawn)
    ensures DialogsOk(Next(s, Spawn))
  {
  }

  lemma DialogsOkCloseRoutes(s: State)
    requires DialogsOk(s) && s.pc.Stopped?
    ensures DialogsOk(Next(s, CloseRoutes))
  {
  }

  lemma DialogsOkStep(s: State, e: Event)
    requires RoutesOk(s) && PcOk(s) && DialogsOk(s) && Enabled(s, e)
    ensures DialogsOk(Next(s, e))
  {
    match e
    case Lookup => DialogsOkLookup(s);
    case Send => DialogsOkSend(s);
    case Spawn => DialogsOkSpawn(s);
    case CloseRoutes => DialogsOkCloseRoutes(s);
    case Task(d, act) => DialogsOkTask(s, d, act);
    case _ =>
  }

  /** Steps that leave the logs alone: the same owners, the same MOs sent, and no channel reopened. */
  ghost predicate KeepsLogs(s: State, s': State) {
    && s'.outcomes == s.outcomes
    && SameUsers(s.dialogs, s'.dialogs)
    && forall d :: 0 <= d < |s.dialogs| ==>
         s'.dialogs[d].sent == s.dialogs[d].sent &&
         (s.dialogs[d].channel.closed ==> s'.dialogs[d].channel.closed)
  }

  lemma LogsOkKeep(s: State, s': State)
    requires LogsOk(s) && KeepsLogs(s, s')
    requires s'.arrived == Arrivals(s.outcomes) + InHand(s'.pc)
    ensures LogsOk(s')
  {
    forall u: UserId
      ensures AcceptedOf(s'.outcomes, u) == SentTo(s'.dialogs, u)
    {
      SentToSame(s.dialogs, s'.dialogs, u);
    }
  }

  lemma LogsOkLookup(s: State)
    requires LogsOk(s) && s.pc.Routing?
    ensures LogsOk(LookupStep(s))
  {
    var s' := LookupStep(s);
    if s.pc.mo.sender !in s.routes {
      assert s'.dialogs[..|s.dialogs|] == s.dialogs;
      assert forall u :: SentTo(s'.dialogs, u) == SentTo(s.dialogs, u) + [];
    }
  }

  lemma LogsOkSend(s: State)
    requires LogsOk(s) && PcOk(s) && Enabled(s, Send)
    ensures LogsOk(SendStep(s))
  {
    var s' := SendStep(s);
    var Sending(mo, d, isNew) := s.pc;
    var o := Outcome(mo, d, !s.dialogs[d].channel.closed);
    assert s'.outcomes[..|s.outcomes|] == s.outcomes;
    assert Arrivals(s'.outcomes) == Arrivals(s.outcomes) + [mo];
    forall u: UserId
      ensures AcceptedOf(s'.outcomes, u) == SentTo(s'.dialogs, u)
    {
      if o.accepted {
        SentToAppend(s.dialogs, d, mo, u);
      } else {
        SentToSame(s.dialogs, s'.dialogs, u);
      }
    }
  }

  lemma LogsOkTask(s: State, d: DialogId, act: Action)
    requires LogsOk(s) && DialogsOk(s) && Enabled(s, Task(d, act))
    ensures LogsOk(TaskStep(s, d, act))
  {
    ActKeepsIdentity(s.dialogs[d], act, s.dialogs[d].user in s.routes, s.mtClosed);
    LogsOkKeep(s, TaskStep(s, d, act));
  }

  lemma LogsOkStep(s: State, e: Event)
    requires LogsOk(s) && PcOk(s) && DialogsOk(s) && Enabled(s, e)
    ensures LogsOk(Next(s, e))
  {
    match e
    case Lookup => LogsOkLookup(s);
    case Send => LogsOkSend(s);
    case Task(d, act) => LogsOkTask(s, d, act);
    case Arrive(mo) =>
      assert s.arrived + [mo] == Arrivals(s.outcomes) + [mo];
      LogsOkKeep(s, Next(s, e));
    case _ => LogsOkKeep(s, Next(s, e));
  }

  lemma ProjectAppend(ts: seq<Tagged>, t: Tagged, d: DialogId)
    ensures Project(ts + [t], d) == Project(ts, d) + (if t.dialog == d then [t.mt] else [])
  {
    assert (ts + [t])[..|ts|] == ts;
  }

  /** What changes neither the queue and the deliveries together nor an accepted reply keeps the MTs. */
  lemma MtsOkKeep(s: State, s': State)
    requires MtsOk(s) && s'.delivered + s'.mtQueue == s.delivered + s.mtQueue && |s'.mtQueue| <= |s.mtQueue|
    requires |s.dialogs| <= |s'.dialogs|
    requires forall d :: 0 <= d < |s.dialogs| ==> s'.dialogs[d].accepted == s.dialogs[d].accepted
    requires forall d :: |s.dialogs| <= d < |s'.dialogs| ==> s'.dialogs[d].accepted == []
    ensures MtsOk(s')
  {
  }

  lemma MtsOkTask(s: State, d: DialogId, act: Action)
    requires MtsOk(s) && Enabled(s, Task(d, act))
    ensures MtsOk(TaskStep(s, d, act))
  {
    var s' := TaskStep(s, d, act);
    if act.SendMt? && !s.mtClosed {
      var t := Tagged(d, s.dialogs[d].pending.value);
      assert s'.delivered + s'.mtQueue == (s.delivered + s.mtQueue) + [t];
      forall e: DialogId
        ensures Project(s'.delivered + s'.mtQueue, e) == (if e < |s'.dialogs| then s'.dialogs[e].accepted else [])
      {
        ProjectAppend(s.delivered + s.mtQueue, t, e);
      }
    } else {
      MtsOkKeep(s, s');
    }
  }

  lemma MtsOkStep(s: State, e: Event)
    requires MtsOk(s) && Enabled(s, e)
    ensures MtsOk(Next(s, e))
  {
    match e
    case Task(d, act) => MtsOkTask(s, d, act);
    case ReceiveMt =>
      assert s.delivered + s.mtQueue == s.delivered + [s.mtQueue[0]] + s.mtQueue[1..];
      MtsOkKeep(s, Next(s, e));
    case _ => MtsOkKeep(s, Next(s, e));
  }

  /** Every enabled event keeps the invariant. */
  lemma InvStep(s: State, e: Event)
    requires Inv(s) && Enabled(s, e)
    ensures Inv(Next(s, e))
  {
    RoutesOkStep(s, e);
    PcOkStep(s, e);
    DialogsOkStep(s, e);
    LogsOkStep(s, e);
    MtsOkStep(s, e);
  }

  lemma {:induction false} InvAlways(es: seq<Event>)
    requires Feasible(es)
    ensures Inv(After(es))
  {
    if es == [] {
    } else {
      InvAlways(es[..|es| - 1]);
      InvStep(After(es[..|es| - 1]), es[|es| - 1]);
    }
  }

  /** A state some run leads to. */
  ghost predicate Reachable(s: State) {
    exists es :: Feasible(es) && After(es) == s
  }

  lemma ReachableInv(s: State)
    requires Reachable(s)
    ensures Inv(s)
  {
    var es :| Feasible(es) && After(es) == s;
    InvAlways(es);
  }
}
