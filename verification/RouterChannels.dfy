/** What closes the router's channels, what a closed one still does, and that an open one can be drained:
    all of it measured against the events of the run. */
module RouterChannels {
  import opened Wrappers
  import opened Router
  import opened RouterSafety
  import opened RouterRuns
  import opened RouterShutdown

  // ---- the logs are those of the run ----

  /** The MOs that arrived in a run. */
  function ArrivedIn(es: seq<Event>): seq<Mo> {
    if es == [] then []
    else ArrivedIn(es[..|es| - 1]) + (if es[|es| - 1].Arrive? then [es[|es| - 1].mo] else [])
  }

  /** The replies the processor of `d` gave in a run. */
  function ProducedIn(es: seq<Event>, d: DialogId): seq<Mt> {
    if es == [] then []
    else
      var e := es[|es| - 1];
      ProducedIn(es[..|es| - 1], d) + (if e.Task? && e.d == d && e.act.Produce? then [e.act.mt] else [])
  }

  lemma {:induction false} ArrivedIsTheRuns(es: seq<Event>)
    requires Feasible(es)
    ensures After(es).arrived == ArrivedIn(es)
  {
    if es != [] {
      ArrivedIsTheRuns(es[..|es| - 1]);
    }
  }

  lemma ProducedStep(s: State, e: Event, d: DialogId)
    requires Enabled(s, e) && d < |Next(s, e).dialogs|
    ensures Next(s, e).dialogs[d].produced ==
              (if d < |s.dialogs| then s.dialogs[d].produced else [])
              + (if e.Task? && e.d == d && e.act.Produce? then [e.act.mt] else [])
  {
  }

  lemma {:induction false} ProducedIsTheRuns(es: seq<Event>, d: DialogId)
    requires Feasible(es)
    ensures ProducedIn(es, d) == if d < |After(es).dialogs| then After(es).dialogs[d].produced else []
  {
    if es != [] {
      var s, e := After(es[..|es| - 1]), es[|es| - 1];
      ProducedIsTheRuns(es[..|es| - 1], d);
      if d < |Next(s, e).dialogs| {
        ProducedStep(s, e, d);
      }
    }
  }

  /** Every log of a dialog and of the router is that of the run's events. */
  lemma LogsAreTheRuns(es: seq<Event>, d: DialogId)
    requires Feasible(es) && d < |After(es).dialogs|
    ensures After(es).arrived == ArrivedIn(es) && After(es).dialogs[d].produced == ProducedIn(es, d)
  {
    ArrivedIsTheRuns(es);
    ProducedIsTheRuns(es, d);
  }

  // ---- what closes an MO channel ----

  /** The task `d` has done `act` in the run. */
  predicate Did(es: seq<Event>, d: DialogId, act: Action) {
    Task(d, act) in es
  }

  /** The idle close of `d` found a route of its user. */
  predicate FoundRoute(es: seq<Event>, d: DialogId)
    requires Feasible(es)
    decreases es
  {
    es != [] &&
    (FoundRoute(es[..|es| - 1], d) ||
     (es[|es| - 1] == Task(d, IdleUnlink) && After(es[..|es| - 1]).dialogs[d].user in After(es[..|es| - 1]).routes))
  }

  /** The end of the shutdown loop found `d` registered. */
  predicate ShutDown(es: seq<Event>, d: DialogId)
    requires Feasible(es)
    decreases es
  {
    es != [] && (ShutDown(es[..|es| - 1], d) || (es[|es| - 1].CloseRoutes? && HasRoute(After(es[..|es| - 1]), d)))
  }

  predicate ReceiverGone(es: seq<Event>, d: DialogId) {
    Did(es, d, DropReceiver) || Did(es, d, EndProcessor)
  }

  predicate ClosedIn(es: seq<Event>, d: DialogId)
    requires Feasible(es)
  {
    ReceiverGone(es, d) || (Did(es, d, IdleClose) && FoundRoute(es, d)) || ShutDown(es, d)
  }

  /** What the phase of a dialog says about its past. */
  predicate PastOk(es: seq<Event>, d: DialogId)
    requires Feasible(es) && d < |After(es).dialogs|
  {
    var dialog := After(es).dialogs[d];
    && (dialog.rxOpen <==> !ReceiverGone(es, d))
    && (dialog.channel.closed <==> ClosedIn(es, d))
    && (dialog.phase.Created? || dialog.phase.Serving? ==> !FoundRoute(es, d) && !Did(es, d, IdleClose))
    && (dialog.phase.IdleUnlinked? ==> (dialog.phase.had <==> FoundRoute(es, d)) && !Did(es, d, IdleClose))
    && (dialog.phase.Ended? || dialog.phase.FinalUnlinked? || dialog.phase.Done? ==> Did(es, d, EndProcessor))
  }

  lemma DidMore(es: seq<Event>, d: DialogId, act: Action)
    requires es != []
    ensures Did(es, d, act) <==> Did(es[..|es| - 1], d, act) || es[|es| - 1] == Task(d, act)
  {
    assert es == es[..|es| - 1] + [es[|es| - 1]];
  }

  lemma DidAll(es: seq<Event>, d: DialogId)
    requires es != []
    ensures ReceiverGone(es, d) <==>
              ReceiverGone(es[..|es| - 1], d) || es[|es| - 1] == Task(d, DropReceiver) || es[|es| - 1] == Task(d, EndProcessor)
    ensures Did(es, d, IdleClose) <==> Did(es[..|es| - 1], d, IdleClose) || es[|es| - 1] == Task(d, IdleClose)
    ensures Did(es, d, EndProcessor) <==> Did(es[..|es| - 1], d, EndProcessor) || es[|es| - 1] == Task(d, EndProcessor)
  {
    DidMore(es, d, DropReceiver);
    DidMore(es, d, EndProcessor);
    DidMore(es, d, IdleClose);
  }

  lemma {:induction false} NoPastBeforeCreation(es: seq<Event>, d: DialogId)
    requires Feasible(es) && d >= |After(es).dialogs|
    ensures !FoundRoute(es, d) && !ShutDown(es, d) && !ReceiverGone(es, d) && !Did(es, d, IdleClose) && !Did(es, d, EndProcessor)
  {
    if es != [] {
      DidAll(es, d);
      NoPastBeforeCreation(es[..|es| - 1], d);
    }
  }

  lemma PastOfNew(es: seq<Event>, d: DialogId)
    requires Feasible(es) && es != [] && |After(es[..|es| - 1]).dialogs| <= d < |After(es).dialogs|
    ensures PastOk(es, d)
  {
    DidAll(es, d);
    NoPastBeforeCreation(es[..|es| - 1], d);
  }

  lemma PastOfTask(es: seq<Event>, d: DialogId)
    requires Feasible(es) && es != [] && d < |After(es[..|es| - 1]).dialogs|
    requires es[|es| - 1].Task? && es[|es| - 1].d == d && PastOk(es[..|es| - 1], d)
    ensures PastOk(es, d)
  {
    DidAll(es, d);
  }

  lemma OtherStep(s: State, e: Event, d: DialogId)
    requires PcOk(s) && Enabled(s, e) && !(e.Task? && e.d == d) && d < |s.dialogs| <= |Next(s, e).dialogs|
    ensures
      var was, now := s.dialogs[d], Next(s, e).dialogs[d];
      && now.rxOpen == was.rxOpen
      && (now.channel.closed <==> was.channel.closed || (e.CloseRoutes? && HasRoute(s, d)))
      && (now.phase == was.phase || (was.phase.Created? && now.phase.Serving?))
  {
  }

  lemma PastOfOther(es: seq<Event>, d: DialogId)
    requires Feasible(es) && es != [] && d < |After(es[..|es| - 1]).dialogs|
    requires !(es[|es| - 1].Task? && es[|es| - 1].d == d) && PastOk(es[..|es| - 1], d)
    ensures PastOk(es, d)
  {
    DidAll(es, d);
    InvAlways(es[..|es| - 1]);
    RouteStep(After(es[..|es| - 1]), es[|es| - 1], d);
    OtherStep(After(es[..|es| - 1]), es[|es| - 1], d);
  }

  lemma {:induction false} PastAlways(es: seq<Event>, d: DialogId)
    requires Feasible(es) && d < |After(es).dialogs|
    ensures PastOk(es, d)
  {
    if es != [] {
      if d >= |After(es[..|es| - 1]).dialogs| {
        PastOfNew(es, d);
      } else {
        PastAlways(es[..|es| - 1], d);
        if es[|es| - 1].Task? && es[|es| - 1].d == d {
          PastOfTask(es, d);
        } else {
          PastOfOther(es, d);
        }
      }
    }
  }

  /** In every run a dialog's channel is closed exactly when its receiver is gone, or its idle close found a
      route and has got through, or the end of the shutdown found the dialog registered. */
  lemma ChannelClosedExactly(es: seq<Event>, d: DialogId)
    requires Feasible(es) && d < |After(es).dialogs|
    ensures After(es).dialogs[d].rxOpen <==> !ReceiverGone(es, d)
    ensures After(es).dialogs[d].channel.closed <==>
              ReceiverGone(es, d) || (Did(es, d, IdleClose) && FoundRoute(es, d)) || ShutDown(es, d)
  {
    PastAlways(es, d);
  }

  // ---- what a closed channel still does ----

  lemma MoreIsNext(es: seq<Event>, more: seq<Event>)
    requires Feasible(es + more) && more != []
    ensures
      var before := es + more[..|more| - 1];
      Feasible(before) && Enabled(After(before), more[|more| - 1]) && After(es + more) == Next(After(before), more[|more| - 1])
  {
    SplitLast(es, more);
    LastIsNext(es + more);
  }

  lemma SplitLast(es: seq<Event>, more: seq<Event>)
    requires more != []
    ensures var whole := es + more; whole[..|whole| - 1] == es + more[..|more| - 1] && whole[|whole| - 1] == more[|more| - 1]
  {
  }

  lemma LastIsNext(es: seq<Event>)
    requires Feasible(es) && es != []
    ensures
      var before, last := es[..|es| - 1], es[|es| - 1];
      Feasible(before) && Enabled(After(before), last) && After(es) == Next(After(before), last)
  {
  }

  lemma ClosedOther(s: State, e: Event, d: DialogId)
    requires Enabled(s, e) && d < |s.dialogs| <= |Next(s, e).dialogs| && !(e.Task? && e.d == d) && s.dialogs[d].channel.closed
    ensures Next(s, e).dialogs[d].channel.closed && Next(s, e).dialogs[d].sent == s.dialogs[d].sent
  {
  }

  lemma ClosedStep(s: State, e: Event, d: DialogId)
    requires Enabled(s, e) && d < |s.dialogs| <= |Next(s, e).dialogs| && ChannelOk(s.dialogs[d]) && s.dialogs[d].channel.closed
    ensures Next(s, e).dialogs[d].channel.closed && Next(s, e).dialogs[d].sent == s.dialogs[d].sent
  {
    if e.Task? && e.d == d {
      ActKeepsIdentity(s.dialogs[d], e.act, s.dialogs[d].user in s.routes, s.mtClosed);
    } else {
      ClosedOther(s, e, d);
    }
  }

  lemma AbandonedAct(dialog: Dialog, act: Action, hasRoute: bool, mtClosed: bool)
    requires ChannelOk(dialog) && CanAct(dialog, act) && Abandoned(dialog)
    ensures Act(dialog, act, hasRoute, mtClosed).consumed == dialog.consumed
  {
  }

  lemma OtherKeepsReader(s: State, e: Event, d: DialogId)
    requires Enabled(s, e) && d < |s.dialogs| <= |Next(s, e).dialogs| && !(e.Task? && e.d == d)
    ensures
      var was, now := s.dialogs[d], Next(s, e).dialogs[d];
      now.consumed == was.consumed && now.rxOpen == was.rxOpen && now.idled == was.idled
  {
  }

  lemma AbandonedStep(s: State, e: Event, d: DialogId)
    requires Enabled(s, e) && d < |s.dialogs| <= |Next(s, e).dialogs| && ChannelOk(s.dialogs[d]) && Abandoned(s.dialogs[d])
    ensures Abandoned(Next(s, e).dialogs[d]) && Next(s, e).dialogs[d].consumed == s.dialogs[d].consumed
  {
    if e.Task? && e.d == d {
      AbandonedAct(s.dialogs[d], e.act, s.dialogs[d].user in s.routes, s.mtClosed);
      ActKeepsIdentity(s.dialogs[d], e.act, s.dialogs[d].user in s.routes, s.mtClosed);
    } else {
      OtherKeepsReader(s, e, d);
    }
  }

  /** A channel once closed is sent nothing any more, and from one once given up nothing is read any more. */
  predicate Rests(was: Dialog, now: Dialog) {
    && (was.channel.closed ==> now.channel.closed && now.sent == was.sent)
    && (Abandoned(was) ==> Abandoned(now) && now.consumed == was.consumed)
  }

  lemma RestsStep(s: State, e: Event, d: DialogId)
    requires Enabled(s, e) && d < |s.dialogs| <= |Next(s, e).dialogs| && ChannelOk(s.dialogs[d])
    ensures Rests(s.dialogs[d], Next(s, e).dialogs[d])
  {
    if s.dialogs[d].channel.closed {
      ClosedStep(s, e, d);
    }
    if Abandoned(s.dialogs[d]) {
      AbandonedStep(s, e, d);
    }
  }

  /** However a run goes on, closed channels and given-up ones rest. */
  lemma {:induction false} ClosedTakesNothing(es: seq<Event>, more: seq<Event>, d: DialogId)
    requires Feasible(es) && Feasible(es + more) && d < |After(es).dialogs|
    ensures |After(es).dialogs| <= |After(es + more).dialogs|
    ensures Rests(After(es).dialogs[d], After(es + more).dialogs[d])
  {
    if more == [] {
      assert es + more == es;
    } else {
      var before := es + more[..|more| - 1];
      MoreIsNext(es, more);
      ClosedTakesNothing(es, more[..|more| - 1], d);
      RouteStep(After(before), more[|more| - 1], d);
      InvAlways(before);
      RestsStep(After(before), more[|more| - 1], d);
    }
  }

  // ---- the MT channel ----

  /** The MT channel is closed exactly when the router has finished. */
  lemma {:induction false} MtChannelClosedExactly(es: seq<Event>)
    requires Feasible(es)
    ensures After(es).mtClosed <==> After(es).pc.Finished?
    ensures After(es).mtClosed <==> CloseMts in es
  {
    if es != [] {
      MtChannelClosedExactly(es[..|es| - 1]);
      assert es == es[..|es| - 1] + [es[|es| - 1]];
    }
  }

  lemma FinishedStep(s: State, e: Event)
    requires Enabled(s, e) && s.pc.Finished? && s.mtClosed
    ensures
      var s' := Next(s, e);
      && s'.pc.Finished? && s'.mtClosed && |s'.dialogs| == |s.dialogs|
      && s'.delivered + s'.mtQueue == s.delivered + s.mtQueue
      && forall d :: 0 <= d < |s.dialogs| ==> s'.dialogs[d].accepted == s.dialogs[d].accepted
  {
    if e.ReceiveMt? {
      assert s.delivered + s.mtQueue == s.delivered + [s.mtQueue[0]] + s.mtQueue[1..];
    }
  }

  /** Replies of `d` that are not accepted. */
  function Unaccepted(dialog: Dialog): seq<Mt> {
    dialog.lost + PendingOf(dialog)
  }

  /** Once the router has finished, no continuation of the run accepts a reply: the merged stream grows no
      more, and whatever a dialog still produces is lost in the order in which it was produced. */
  lemma {:induction false} NothingIsAcceptedAfterShutdown(es: seq<Event>, more: seq<Event>)
    requires Feasible(es) && Feasible(es + more) && After(es).pc.Finished?
    ensures
      var s, s' := After(es), After(es + more);
      && s'.pc.Finished? && s'.mtClosed && |s'.dialogs| == |s.dialogs|
      && s'.delivered + s'.mtQueue == s.delivered + s.mtQueue
      && forall d :: 0 <= d < |s.dialogs| ==> s'.dialogs[d].accepted == s.dialogs[d].accepted
  {
    if more == [] {
      assert es + more == es;
      MtChannelClosedExactly(es);
    } else {
      MoreIsNext(es, more);
      NothingIsAcceptedAfterShutdown(es, more[..|more| - 1]);
      FinishedStep(After(es + more[..|more| - 1]), more[|more| - 1]);
    }
  }

  /** Each reply pushed after the shutdown is lost, and the task goes on. */
  lemma LateReplyIsLost(es: seq<Event>, d: DialogId)
    requires Feasible(es) && After(es).pc.Finished? && d < |After(es).dialogs| && After(es).dialogs[d].pending.Some?
    ensures Feasible(es + [Task(d, SendMt)])
    ensures
      var was, now := After(es).dialogs[d], After(es + [Task(d, SendMt)]).dialogs[d];
      now == was.(pending := None, lost := was.lost + [was.pending.value])
    ensures After(es + [Task(d, SendMt)]).mtQueue == After(es).mtQueue
  {
    MtChannelClosedExactly(es);
    Extend(es, Task(d, SendMt));
  }

  // ---- a finished task has pushed everything ----

  predicate PushedOk(dialog: Dialog) {
    dialog.phase.Ended? || dialog.phase.FinalUnlinked? || dialog.phase.Done? ==> dialog.pending.None?
  }

  lemma PushedStep(s: State, e: Event, d: DialogId)
    requires Enabled(s, e) && d < |Next(s, e).dialogs|
    requires d < |s.dialogs| ==> PushedOk(s.dialogs[d])
    ensures PushedOk(Next(s, e).dialogs[d])
  {
  }

  lemma {:induction false} PushedAlways(es: seq<Event>, d: DialogId)
    requires Feasible(es) && d < |After(es).dialogs|
    ensures PushedOk(After(es).dialogs[d])
  {
    if es != [] {
      if d < |After(es[..|es| - 1]).dialogs| {
        PushedAlways(es[..|es| - 1], d);
      }
      PushedStep(After(es[..|es| - 1]), es[|es| - 1], d);
    }
  }

  /** A task gives its user's route up for good only after each of its replies was accepted or, after the
      shutdown, lost. */
  lemma EndedTaskHasPushedAll(es: seq<Event>, d: DialogId)
    requires Feasible(es) && Enabled(After(es), Task(d, FinalUnlink))
    ensures
      var dialog := After(es).dialogs[d];
      dialog.produced == dialog.accepted + dialog.lost && (CloseMts !in es ==> dialog.produced == dialog.accepted)
  {
    PushedAlways(es, d);
    InvAlways(es);
    MtChannelClosedExactly(es);
    var dialog := After(es).dialogs[d];
    assert RepliesOk(dialog, After(es).mtClosed);
    assert dialog.accepted + dialog.lost + [] == dialog.accepted + dialog.lost;
    assert dialog.accepted + [] == dialog.accepted;
  }

  // ---- an open channel can be drained ----

  /** A serving task has `n` of the MOs sent to it still to read. */
  predicate Reading(s: State, d: DialogId, n: nat, sent: seq<Mo>) {
    d < |s.dialogs| && s.dialogs[d].phase.Serving? && s.dialogs[d].rxOpen &&
    |s.dialogs[d].channel.queue| == n && s.dialogs[d].sent == sent
  }

  lemma ReadOne(s: State, d: DialogId, n: nat, sent: seq<Mo>)
    requires Reading(s, d, n, sent) && n > 0
    ensures Enabled(s, Task(d, Consume)) && Reading(Next(s, Task(d, Consume)), d, n - 1, sent)
  {
  }

  lemma AllRead(s: State, d: DialogId, sent: seq<Mo>)
    requires Reading(s, d, 0, sent) && ChannelOk(s.dialogs[d])
    ensures s.dialogs[d].consumed == sent
  {
  }

  function Reads(d: DialogId, n: nat): seq<Event> {
    if n == 0 then [] else [Task(d, Consume)] + Reads(d, n - 1)
  }

  lemma ReadMore(es: seq<Event>, d: DialogId, n: nat, sent: seq<Mo>) returns (longer: seq<Event>)
    requires Feasible(es) && Reading(After(es), d, n, sent) && n > 0
    ensures Feasible(longer) && Reading(After(longer), d, n - 1, sent)
    ensures es + Reads(d, n) == longer + Reads(d, n - 1)
  {
    ReadOne(After(es), d, n, sent);
    Extend(es, Task(d, Consume));
    longer := es + [Task(d, Consume)];
  }

  /** A serving task can read, one by one, everything that waits in its channel. */
  lemma {:induction false} QueuedMosCanBeRead(es: seq<Event>, d: DialogId, n: nat, sent: seq<Mo>)
    requires Feasible(es) && Reading(After(es), d, n, sent)
    ensures Feasible(es + Reads(d, n)) && d < |After(es + Reads(d, n)).dialogs|
    ensures After(es + Reads(d, n)).dialogs[d].consumed == sent
    decreases n
  {
    if n == 0 {
      assert es + Reads(d, n) == es;
      InvAlways(es);
      AllRead(After(es), d, sent);
    } else {
      var longer := ReadMore(es, d, n, sent);
      QueuedMosCanBeRead(longer, d, n - 1, sent);
    }
  }

  /** Everything that is queued has been received. */
  function Received(s: State): State {
    s.(delivered := s.delivered + s.mtQueue, mtQueue := [])
  }

  lemma ReceiveOne(s: State)
    requires s.mtQueue != []
    ensures Received(Next(s, ReceiveMt)) == Received(s) && |Next(s, ReceiveMt).mtQueue| == |s.mtQueue| - 1
  {
    var q := s.mtQueue;
    assert s.delivered + [q[0]] + q[1..] == s.delivered + q;
  }

  function Receipts(n: nat): seq<Event> {
    if n == 0 then [] else [ReceiveMt] + Receipts(n - 1)
  }

  lemma ReceiveMore(es: seq<Event>, n: nat) returns (longer: seq<Event>)
    requires Feasible(es) && n == |After(es).mtQueue| && n > 0
    ensures Feasible(longer) && |After(longer).mtQueue| == n - 1 && Received(After(longer)) == Received(After(es))
    ensures es + Receipts(n) == longer + Receipts(n - 1)
  {
    ReceiveOne(After(es));
    Extend(es, ReceiveMt);
    longer := es + [ReceiveMt];
  }

  /** The consumer of the merged stream can receive, in order, everything that was accepted. */
  lemma {:induction false} QueuedMtsCanBeReceived(es: seq<Event>, n: nat)
    requires Feasible(es) && n == |After(es).mtQueue|
    ensures Feasible(es + Receipts(n)) && After(es + Receipts(n)) == Received(After(es))
    decreases n
  {
    if n == 0 {
      assert es + Receipts(n) == es;
      assert After(es).delivered + [] == After(es).delivered;
    } else {
      var longer := ReceiveMore(es, n);
      QueuedMtsCanBeReceived(longer, n - 1);
    }
  }

  /** A reply waits only for room in the merged channel, so before the shutdown it can always get through. */
  lemma PendingReplyCanBeDelivered(es: seq<Event>, d: DialogId) returns (more: seq<Event>)
    requires Feasible(es) && CloseMts !in es && d < |After(es).dialogs| && After(es).dialogs[d].pending.Some?
    ensures Feasible(es + more)
    ensures After(es + more).delivered ==
              After(es).delivered + After(es).mtQueue + [Tagged(d, After(es).dialogs[d].pending.value)]
  {
    MtChannelClosedExactly(es);
    more := Receipts(|After(es).mtQueue|);
    QueuedMtsCanBeReceived(es, |After(es).mtQueue|);
    var drained := es + more;
    Extend(drained, Task(d, SendMt));
    Extend(drained + [Task(d, SendMt)], ReceiveMt);
    more := more + [Task(d, SendMt), ReceiveMt];
    assert es + more == drained + [Task(d, SendMt)] + [ReceiveMt];
  }

  /** A reply is pushed at once exactly when the merged channel is closed or holds fewer than 64. */
  lemma PushWaitsExactly(s: State, d: DialogId)
    requires Reachable(s) && d < |s.dialogs| && s.dialogs[d].pending.Some?
    ensures Enabled(s, Task(d, SendMt)) <==> s.mtClosed || |s.mtQueue| < 64
    ensures |s.mtQueue| <= 64
  {
    ReachableInv(s);
  }
}
