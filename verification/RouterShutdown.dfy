/** What the end of the shutdown loop reaches: it closes the channels the map still holds, and those are all
    that are open as long as no route was lost to an older dialog. */
module RouterShutdown {
  import opened Wrappers
  import opened Router
  import opened RouterSafety
  import opened RouterRuns

  predicate ClosingDone(pc: RouterPc) {
    pc.RoutesClosed? || pc.Finished?
  }

  /** A route was found by the idle close and its channel is closed by the end of it; and once the map has
      been closed, only a dialog in the middle of its idle close can have an open channel. */
  predicate Shut(s: State, dialog: Dialog) {
    && (dialog.phase.IdleUnlinked? ==> dialog.phase.had)
    && (dialog.phase.Draining? ==> dialog.channel.closed)
    && (ClosingDone(s.pc) && dialog.Live() ==> dialog.channel.closed || dialog.phase.IdleUnlinked?)
  }

  ghost predicate AllShut(s: State, u: UserId) {
    forall d: DialogId :: d < |s.dialogs| && s.dialogs[d].user == u ==> Shut(s, s.dialogs[d])
  }

  lemma ShutTask(s: State, d: DialogId, act: Action, u: UserId)
    requires AllShut(s, u) && Single(s, u) && DialogsOk(s) && Enabled(s, Task(d, act))
    ensures AllShut(TaskStep(s, d, act), u)
  {
    var s' := TaskStep(s, d, act);
    if s.dialogs[d].user == u {
      assert ChannelOk(s.dialogs[d]);
      assert act.IdleUnlink? ==> LiveOf(s, u, d) && !s.dialogs[d].idled;
      assert Shut(s', s'.dialogs[d]);
    }
  }

  lemma ShutCloseRoutes(s: State, u: UserId)
    requires AllShut(s, u) && Single(s, u) && DialogsOk(s) && Enabled(s, CloseRoutes)
    ensures AllShut(Next(s, CloseRoutes), u)
  {
    var s' := Next(s, CloseRoutes);
    forall d: DialogId | d < |s'.dialogs| && s'.dialogs[d].user == u
      ensures Shut(s', s'.dialogs[d])
    {
      assert ChannelOk(s.dialogs[d]) && Shut(s, s.dialogs[d]);
      assert s.dialogs[d].Live() && !s.dialogs[d].idled ==> LiveOf(s, u, d) && Registered(s.routes, s.dialogs, d);
    }
  }

  /** Before the map is closed the rest of the router only touches channels and adds dialogs. */
  lemma ShutKeep(s: State, s': State, u: UserId)
    requires AllShut(s, u) && |s.dialogs| <= |s'.dialogs| && (ClosingDone(s'.pc) ==> ClosingDone(s.pc) && |s'.dialogs| == |s.dialogs|)
    requires forall d :: 0 <= d < |s.dialogs| ==>
      s'.dialogs[d].user == s.dialogs[d].user && (s.dialogs[d].channel.closed ==> s'.dialogs[d].channel.closed) &&
      (s'.dialogs[d].phase == s.dialogs[d].phase || s'.dialogs[d].phase.Serving?)
    requires ClosingDone(s'.pc) ==> forall d :: 0 <= d < |s.dialogs| ==> s'.dialogs[d].phase == s.dialogs[d].phase
    requires forall d :: |s.dialogs| <= d < |s'.dialogs| ==> s'.dialogs[d].phase.Created?
    ensures AllShut(s', u)
  {
    forall d: DialogId | d < |s'.dialogs| && s'.dialogs[d].user == u
      ensures Shut(s', s'.dialogs[d])
    {
      assert d < |s.dialogs| ==> Shut(s, s.dialogs[d]);
    }
  }

  lemma ShutLookup(s: State, u: UserId)
    requires AllShut(s, u) && Enabled(s, Lookup)
    ensures AllShut(LookupStep(s), u)
  {
    ShutKeep(s, LookupStep(s), u);
  }

  lemma ShutSend(s: State, u: UserId)
    requires AllShut(s, u) && Enabled(s, Send)
    ensures AllShut(SendStep(s), u)
  {
    ShutKeep(s, SendStep(s), u);
  }

  lemma ShutSpawn(s: State, u: UserId)
    requires AllShut(s, u) && Enabled(s, Spawn)
    ensures AllShut(Next(s, Spawn), u)
  {
    ShutKeep(s, Next(s, Spawn), u);
  }

  /** The other events touch no dialog. */
  lemma ShutSame(s: State, s': State, u: UserId)
    requires AllShut(s, u) && s'.dialogs == s.dialogs && (ClosingDone(s'.pc) ==> ClosingDone(s.pc))
    ensures AllShut(s', u)
  {
    forall d: DialogId | d < |s'.dialogs| && s'.dialogs[d].user == u
      ensures Shut(s', s'.dialogs[d])
    {
      assert Shut(s, s.dialogs[d]);
    }
  }

  lemma ShutStep(s: State, e: Event, u: UserId)
    requires AllShut(s, u) && Single(s, u) && DialogsOk(s) && Enabled(s, e)
    ensures AllShut(Next(s, e), u)
  {
    match e
    case Task(d, act) => ShutTask(s, d, act, u);
    case CloseRoutes => ShutCloseRoutes(s, u);
    case Lookup => ShutLookup(s, u);
    case Send => ShutSend(s, u);
    case Spawn => ShutSpawn(s, u);
    case _ => ShutSame(s, Next(s, e), u);
  }

  lemma {:induction false} ShutAlways(es: seq<Event>, u: UserId, i: nat)
    requires Feasible(es) && i <= |es| && !EverLookupInWindow(es, u)
    ensures AllShut(StateAt(es, i), u)
  {
    if i == 0 {
      assert es[..0] == [];
    } else {
      ShutAlways(es, u, i - 1);
      SingleUntilLookupInWindow(es, u, i - 1);
      StateAtNext(es, i - 1);
      ShutStep(StateAt(es, i - 1), es[i - 1], u);
    }
  }

  /** After the routes have been closed, every live dialog of a user none of whose MOs was looked up in a
      window has a closed channel, unless its own idle close is in progress. */
  lemma ShutdownClosesLiveDialogs(es: seq<Event>, s: State, u: UserId, d: DialogId)
    requires Feasible(es) && After(es) == s && !EverLookupInWindow(es, u)
    requires ClosingDone(s.pc) && LiveOf(s, u, d)
    ensures s.dialogs[d].channel.closed || s.dialogs[d].phase.IdleUnlinked?
  {
    ShutAlways(es, u, |es|);
    assert es[..|es|] == es;
    assert Shut(s, s.dialogs[d]);
  }

  // ---- exactly what escapes ----

  predicate HasRoute(s: State, d: DialogId) {
    d < |s.dialogs| && Registered(s.routes, s.dialogs, d)
  }

  /** The event is a `close_dialog`, of whatever dialog, that removes the route of `d`. */
  predicate RemovesRoute(s: State, e: Event, d: DialogId) {
    e.Task? && e.act.Unlinks() && e.d < |s.dialogs| && HasRoute(s, d) && s.dialogs[e.d].user == s.dialogs[d].user
  }

  predicate RouteEverRemoved(es: seq<Event>, d: DialogId)
    requires Feasible(es)
    decreases es
  {
    es != [] && (RouteEverRemoved(es[..|es| - 1], d) || RemovesRoute(After(es[..|es| - 1]), es[|es| - 1], d))
  }

  /** A route is given once and never given back. */
  lemma RouteStep(s: State, e: Event, d: DialogId)
    requires Enabled(s, e)
    ensures |s.dialogs| <= |Next(s, e).dialogs|
    ensures d < |s.dialogs| ==> (HasRoute(Next(s, e), d) <==> HasRoute(s, d) && !RemovesRoute(s, e, d))
    ensures |s.dialogs| <= d < |Next(s, e).dialogs| ==> HasRoute(Next(s, e), d) && e.Lookup?
  {
    assert d < |s.dialogs| ==> Next(s, e).dialogs[d].user == s.dialogs[d].user;
  }

  lemma {:induction false} NoRouteBeforeCreation(es: seq<Event>, d: DialogId)
    requires Feasible(es) && d >= |After(es).dialogs|
    ensures !RouteEverRemoved(es, d)
  {
    if es != [] {
      RouteStep(After(es[..|es| - 1]), es[|es| - 1], d);
      NoRouteBeforeCreation(es[..|es| - 1], d);
    }
  }

  lemma {:induction false} HasRouteUntilRemoved(es: seq<Event>, d: DialogId)
    requires Feasible(es) && d < |After(es).dialogs|
    ensures HasRoute(After(es), d) <==> !RouteEverRemoved(es, d)
  {
    if es != [] {
      var before := es[..|es| - 1];
      RouteStep(After(before), es[|es| - 1], d);
      if d < |After(before).dialogs| {
        HasRouteUntilRemoved(before, d);
      } else {
        NoRouteBeforeCreation(before, d);
      }
    }
  }

  /** When the shutdown closes the routes, a live dialog keeps an open channel exactly when it was open and
      some `close_dialog` had removed its route. */
  lemma EscapesShutdownExactly(es: seq<Event>, u: UserId, d: DialogId)
    requires Feasible(es) && Enabled(After(es), CloseRoutes) && LiveOf(After(es), u, d)
    ensures !Next(After(es), CloseRoutes).dialogs[d].channel.closed <==>
              !After(es).dialogs[d].channel.closed && RouteEverRemoved(es, d)
  {
    HasRouteUntilRemoved(es, d);
  }

  /** The shutdown misses a dialog whose route an older dialog has taken: it still serves, its channel open. */
  lemma LostRouteEscapesShutdown() returns (es: seq<Event>)
    ensures Feasible(es) && After(es).pc.RoutesClosed?
    ensures LiveOf(After(es), 7, 1) && After(es).dialogs[1].phase.Serving? && !After(es).dialogs[1].channel.closed
  {
    es := LoseRoute();
    es := LetServe(es);
    Extend(es, EndOfMos);
    es := es + [EndOfMos];
    Extend(es, CloseRoutes);
    es := es + [CloseRoutes];
  }

  /** The newer dialog's route is gone before its first MO is sent. */
  lemma LoseRoute() returns (es: seq<Event>)
    ensures Feasible(es) && After(es).pc == Sending(Mo(7, 2), 1, true) && After(es).routes == map[]
    ensures |After(es).dialogs| == 2 && After(es).dialogs[1] == NewDialog(Mo(7, 2))
  {
    es := RouteOfNewerDialogIsTaken();
    Extend(es, Task(0, FinalUnlink));
    es := es + [Task(0, FinalUnlink)];
  }

  lemma LetServe(before: seq<Event>) returns (es: seq<Event>)
    requires Feasible(before) && After(before).pc == Sending(Mo(7, 2), 1, true) && After(before).routes == map[]
    requires |After(before).dialogs| == 2 && After(before).dialogs[1] == NewDialog(Mo(7, 2))
    ensures Feasible(es) && After(es).pc.Idle? && After(es).routes == map[] && |After(es).dialogs| == 2
    ensures var dialog := After(es).dialogs[1]; dialog.user == 7 && dialog.phase.Serving? && !dialog.channel.closed
  {
    es := before;
    Extend(es, Send);
    es := es + [Send];
    Extend(es, Spawn);
    es := es + [Spawn];
  }
}
