/** The router's promises over whole runs, for every interleaving of the loop and its dialogs. */
module RouterRuns {
  import opened Wrappers
  import opened Router
  import opened RouterSafety

  // ---- what happens to every MO ----

  /** In every run each arrived MO, in order, is accepted once or dropped on a channel of its sender
      that is closed, or is the one in the router's hands; what the channels accepted from a user is
      what was sent to that user's dialogs in creation order; and each dialog has consumed a prefix
      of what it was sent, the rest still queued. */
  lemma MosAreConserved(s: State, u: UserId)
    requires Reachable(s)
    ensures
      && s.arrived == Arrivals(s.outcomes) + InHand(s.pc)
      && AcceptedOf(s.outcomes, u) == SentTo(s.dialogs, u)
      && (forall d :: 0 <= d < |s.dialogs| ==> s.dialogs[d].sent == s.dialogs[d].consumed + s.dialogs[d].channel.queue)
      && forall i :: 0 <= i < |s.outcomes| ==>
           var o := s.outcomes[i];
           o.dialog < |s.dialogs| && s.dialogs[o.dialog].user == o.mo.sender &&
           (o.accepted || s.dialogs[o.dialog].channel.closed)
  {
    ReachableInv(s);
  }

  // ---- routes and tasks ----

  /** In every run a registered route leads to its user's most recently created dialog, whose task is
      unfinished, and each channel has exactly one task once the router loop has let go of it. */
  lemma RoutesLeadToLatestDialog(s: State)
    requires Reachable(s)
    ensures
      && (forall u :: u in s.routes ==> Latest(s.dialogs, u, s.routes[u]) && s.dialogs[s.routes[u]].Live())
      && (forall d :: 0 <= d < |s.dialogs| ==> s.dialogs[d].spawns == if Unspawned(s.pc, d) then 0 else 1)
  {
    ReachableInv(s);
  }

  /** The send into a fresh channel is accepted in every run, so every dialog's log starts with the MO
      that created it. */
  lemma FreshSendIsAccepted(s: State, d: DialogId)
    requires Reachable(s) && d < |s.dialogs|
    ensures
      if s.pc == Sending(s.dialogs[d].creator, d, true) then
        s.dialogs[d].sent == [] && Next(s, Send).outcomes == s.outcomes + [Outcome(s.dialogs[d].creator, d, true)]
        && Next(s, Send).dialogs[d].sent == [s.dialogs[d].creator]
      else
        s.dialogs[d].sent != [] && s.dialogs[d].sent[0] == s.dialogs[d].creator
  {
    ReachableInv(s);
  }

  /** A send is refused only by a dialog that nobody reads any more, and always by one whose receiver
      has been dropped. */
  lemma SendIsRefusedOnlyByAbandoned(s: State)
    requires Reachable(s) && s.pc.Sending?
    ensures
      && Enabled(s, Send)
      && var dialog, o := s.dialogs[s.pc.dialog], Next(s, Send).outcomes[|s.outcomes|];
         && (!o.accepted ==> Abandoned(dialog))
         && (!dialog.rxOpen ==> !o.accepted)
  {
    ReachableInv(s);
  }

  // ---- one live dialog per user ----

  predicate LiveOf(s: State, u: UserId, d: DialogId) {
    d < |s.dialogs| && s.dialogs[d].user == u && s.dialogs[d].Live()
  }

  ghost predicate TwoLive(s: State, u: UserId) {
    exists d: DialogId, e: DialogId :: LiveOf(s, u, d) && LiveOf(s, u, e) && d != e
  }

  /** Some dialog of `u` is between its idle `close_dialog` and its final one. */
  ghost predicate WindowOpen(s: State, u: UserId) {
    exists d: DialogId :: LiveOf(s, u, d) && s.dialogs[d].InWindow()
  }

  /** An MO of `u` is looked up in such a window. */
  ghost predicate LookupInWindow(s: State, e: Event, u: UserId) {
    e.Lookup? && s.pc.Routing? && s.pc.mo.sender == u && WindowOpen(s, u)
  }

  /** At most one live dialog, and its route is there until the idle timeout removes it. */
  ghost predicate Single(s: State, u: UserId) {
    && (forall d: DialogId, e: DialogId :: LiveOf(s, u, d) && LiveOf(s, u, e) ==> d == e)
    && (forall d: DialogId :: LiveOf(s, u, d) && !s.dialogs[d].idled ==> u in s.routes && s.routes[u] == d)
  }

  lemma SingleKeep(s: State, s': State, u: UserId)
    requires Single(s, u) && s'.routes == s.routes && SameUsers(s.dialogs, s'.dialogs)
    requires forall d :: 0 <= d < |s.dialogs| ==> s'.dialogs[d].Live() == s.dialogs[d].Live() && s'.dialogs[d].idled == s.dialogs[d].idled
    ensures Single(s', u)
  {
    assert forall d: DialogId :: LiveOf(s', u, d) ==> LiveOf(s, u, d);
  }

  lemma SingleTask(s: State, d: DialogId, act: Action, u: UserId)
    requires Single(s, u) && Enabled(s, Task(d, act))
    ensures Single(TaskStep(s, d, act), u)
  {
    var s' := TaskStep(s, d, act);
    assert forall e: DialogId :: LiveOf(s', u, e) ==> LiveOf(s, u, e);
    assert act.Unlinks() ==> LiveOf(s, s.dialogs[d].user, d);
  }

  lemma SingleLookup(s: State, u: UserId)
    requires RoutesOk(s) && Single(s, u) && s.pc.Routing? && !LookupInWindow(s, Lookup, u)
    ensures Single(LookupStep(s), u)
  {
    var s' := LookupStep(s);
    if u == s.pc.mo.sender && u !in s.routes {
      forall d: DialogId
        ensures !LiveOf(s, u, d)
      {
        if LiveOf(s, u, d) {
          assert s.dialogs[d].InWindow();
        }
      }
      assert forall d: DialogId :: LiveOf(s', u, d) ==> d == |s.dialogs|;
    } else {
      assert forall d: DialogId :: LiveOf(s', u, d) ==> LiveOf(s, u, d) && s'.dialogs[d] == s.dialogs[d];
    }
  }

  lemma SingleStep(s: State, e: Event, u: UserId)
    requires RoutesOk(s) && PcOk(s) && Single(s, u) && Enabled(s, e) && !LookupInWindow(s, e, u)
    ensures Single(Next(s, e), u)
  {
    match e
    case Lookup => SingleLookup(s, u);
    case Task(d, act) => SingleTask(s, d, act, u);
    case _ => SingleKeep(s, Next(s, e), u);
  }

  /** The other half: a lookup in the window leaves two live dialogs behind. */
  lemma LookupInWindowMakesTwo(s: State, u: UserId)
    requires RoutesOk(s) && LookupInWindow(s, Lookup, u)
    ensures TwoLive(LookupStep(s), u)
  {
    var s' := LookupStep(s);
    var w: DialogId :| LiveOf(s, u, w) && s.dialogs[w].InWindow();
    assert LiveOf(s', u, w);
    if u in s.routes {
      assert Latest(s.dialogs, u, s.routes[u]);
      assert LiveOf(s', u, s.routes[u]);
    } else {
      assert LiveOf(s', u, |s.dialogs|);
    }
  }

  lemma {:induction false} FeasiblePrefix(es: seq<Event>, i: nat)
    requires Feasible(es) && i <= |es|
    ensures Feasible(es[..i])
  {
    if i == |es| {
      assert es[..i] == es;
    } else {
      FeasiblePrefix(es[..|es| - 1], i);
      assert es[..|es| - 1][..i] == es[..i];
    }
  }

  /** The state a run passes through after `i` events. */
  function StateAt(es: seq<Event>, i: nat): State
    requires Feasible(es) && i <= |es|
  {
    FeasiblePrefix(es, i);
    After(es[..i])
  }

  lemma StateAtNext(es: seq<Event>, i: nat)
    requires Feasible(es) && i < |es|
    ensures Enabled(StateAt(es, i), es[i]) && StateAt(es, i + 1) == Next(StateAt(es, i), es[i])
    ensures Inv(StateAt(es, i))
  {
    FeasiblePrefix(es, i + 1);
    FeasiblePrefix(es, i);
    assert es[..i + 1][..i] == es[..i];
    InvAlways(es[..i]);
  }

  /** A user is safe up to `i` while no MO of theirs was looked up in a window before. */
  lemma {:induction false} SingleUntilLookupInWindow(es: seq<Event>, u: UserId, i: nat)
    requires Feasible(es) && i <= |es|
    requires forall j :: 0 <= j < i ==> !LookupInWindow(StateAt(es, j), es[j], u)
    ensures Single(StateAt(es, i), u)
  {
    if i == 0 {
      assert es[..0] == [];
    } else {
      SingleUntilLookupInWindow(es, u, i - 1);
      StateAtNext(es, i - 1);
      SingleStep(StateAt(es, i - 1), es[i - 1], u);
    }
  }

  /** The run passes through a state in which the user has two live dialogs. */
  ghost predicate EverTwoLive(es: seq<Event>, u: UserId)
    requires Feasible(es)
  {
    exists i :: 0 <= i <= |es| && TwoLive(StateAt(es, i), u)
  }

  /** The run looks up an MO of the user between some dialog's idle `close_dialog` and its final one. */
  ghost predicate EverLookupInWindow(es: seq<Event>, u: UserId)
    requires Feasible(es)
  {
    exists i :: 0 <= i < |es| && LookupInWindow(StateAt(es, i), es[i], u)
  }

  /** A run gives some user two live dialogs at once exactly when it looks up an MO of that user
      between a dialog's idle `close_dialog` and the same dialog's final one. */
  lemma TwoLiveExactlyAfterLookupInWindow(es: seq<Event>, u: UserId)
    requires Feasible(es)
    ensures EverTwoLive(es, u) <==> EverLookupInWindow(es, u)
  {
    if EverTwoLive(es, u) && !EverLookupInWindow(es, u) {
      var i :| 0 <= i <= |es| && TwoLive(StateAt(es, i), u);
      SingleUntilLookupInWindow(es, u, i);
      assert false;
    }
    if i :| 0 <= i < |es| && LookupInWindow(StateAt(es, i), es[i], u) {
      StateAtNext(es, i);
      LookupInWindowMakesTwo(StateAt(es, i), u);
      assert TwoLive(StateAt(es, i + 1), u);
    }
  }

  lemma RouteIsOwn(s: State, u: UserId, d: DialogId)
    requires RoutesOk(s) && Single(s, u) && LiveOf(s, u, d)
    ensures u in s.routes ==> s.routes[u] == d
  {
    if u in s.routes {
      assert Latest(s.dialogs, u, s.routes[u]);
      assert LiveOf(s, u, s.routes[u]);
    }
  }

  /** `close_dialog` compares no channels, yet while no MO of the user fell into a window it never
      takes a route that is not the closing dialog's own. */
  lemma CloseDialogTakesOwnRoute(es: seq<Event>, s: State, u: UserId, d: DialogId, act: Action)
    requires Feasible(es) && After(es) == s && !EverLookupInWindow(es, u)
    requires Enabled(s, Task(d, act)) && act.Unlinks() && s.dialogs[d].user == u
    ensures u in s.routes ==> s.routes[u] == d
  {
    InvAlways(es);
    SingleUntilLookupInWindow(es, u, |es|);
    assert es[..|es|] == es;
    RouteIsOwn(s, u, d);
  }

  lemma Extend(es: seq<Event>, e: Event)
    requires Feasible(es) && Enabled(After(es), e)
    ensures Feasible(es + [e]) && After(es + [e]) == Next(After(es), e)
  {
    assert (es + [e])[..|es|] == es;
  }

  /** One dialog of user 7 opened by a first MO, timed out, and with its processor ended. */
  lemma TimedOutRun() returns (es: seq<Event>, dialog: Dialog)
    ensures Feasible(es)
    ensures After(es).routes == map[] && After(es).dialogs == [dialog] && After(es).pc.Idle?
    ensures dialog.user == 7 && dialog.phase.Ended? && dialog.idled
  {
    es := [];
    Extend(es, Arrive(Mo(7, 1)));
    es := es + [Arrive(Mo(7, 1))];
    Extend(es, Lookup);
    es := es + [Lookup];
    Extend(es, Send);
    es := es + [Send];
    Extend(es, Spawn);
    es := es + [Spawn];
    assert |After(es).dialogs| == 1 && After(es).dialogs[0].phase.Serving?;
    es := TimeOut(es);
    dialog := After(es).dialogs[0];
  }

  lemma TimeOut(es0: seq<Event>) returns (es: seq<Event>)
    requires Feasible(es0) && After(es0).pc.Idle? && |After(es0).dialogs| == 1
    requires var d := After(es0).dialogs[0]; d.phase.Serving? && d.rxOpen && d.user == 7 && d.pending.None?
    requires After(es0).routes == map[7 := 0]
    ensures Feasible(es) && After(es).pc.Idle? && |After(es).dialogs| == 1
    ensures var d := After(es).dialogs[0]; d.phase.Ended? && d.idled && d.user == 7
    ensures After(es).routes == map[]
  {
    es := es0;
    Extend(es, Task(0, IdleUnlink));
    es := es + [Task(0, IdleUnlink)];
    Extend(es, Task(0, IdleClose));
    es := es + [Task(0, IdleClose)];
    Extend(es, Task(0, EndProcessor));
    es := es + [Task(0, EndProcessor)];
  }

  /** The unconditional claim is false: a dialog times out, the same user writes again before the old
      task has ended, and the old task's final `close_dialog` then takes the new dialog's route. */
  lemma RouteOfNewerDialogIsTaken() returns (es: seq<Event>)
    ensures Feasible(es) && Enabled(After(es), Task(0, FinalUnlink))
    ensures TwoLive(After(es), 7) && After(es).routes == map[7 := 1]
    ensures After(es).pc == Sending(Mo(7, 2), 1, true) && |After(es).dialogs| == 2 && After(es).dialogs[1] == NewDialog(Mo(7, 2))
    ensures 7 !in Next(After(es), Task(0, FinalUnlink)).routes
  {
    var ended: Dialog;
    es, ended := TimedOutRun();
    Extend(es, Arrive(Mo(7, 2)));
    es := es + [Arrive(Mo(7, 2))];
    Extend(es, Lookup);
    es := es + [Lookup];
    assert LiveOf(After(es), 7, 0) && LiveOf(After(es), 7, 1);
  }

  // ---- the merged MT stream ----

  lemma {:induction false} ProjectPrefix(ts: seq<Tagged>, more: seq<Tagged>, d: DialogId)
    ensures Project(ts, d) <= Project(ts + more, d)
  {
    if more == [] {
      assert ts + more == ts;
    } else {
      ProjectPrefix(ts, more[..|more| - 1], d);
      assert (ts + more)[..|ts + more| - 1] == ts + more[..|more| - 1];
    }
  }

  /** What the merged stream has delivered from a dialog is a prefix of what the dialog produced, and
      the queue never exceeds its capacity. A reply is lost only once the MT channel is closed. */
  lemma DeliveredIsPrefixOfProduced(s: State, d: DialogId)
    requires Reachable(s) && d < |s.dialogs|
    ensures
      && Project(s.delivered, d) <= s.dialogs[d].accepted <= s.dialogs[d].produced
      && Project(s.delivered + s.mtQueue, d) == s.dialogs[d].accepted
      && |s.mtQueue| <= MT_CAPACITY
      && (!s.mtClosed ==> s.dialogs[d].produced == s.dialogs[d].accepted + PendingOf(s.dialogs[d]))
  {
    ReachableInv(s);
    ProjectPrefix(s.delivered, s.mtQueue, d);
    assert !s.mtClosed ==> s.dialogs[d].accepted + [] + PendingOf(s.dialogs[d]) == s.dialogs[d].accepted + PendingOf(s.dialogs[d]);
  }

  /** A processor that answers the i-th MO it consumed with its i-th reply. */
  predicate AnswersInOrder(s: State, e: Event, reply: (nat, Mo) -> Mt) {
    e.Task? && e.act.Produce? && e.d < |s.dialogs| ==>
      var dialog := s.dialogs[e.d];
      |dialog.produced| < |dialog.consumed| && e.act.mt == reply(|dialog.produced|, dialog.consumed[|dialog.produced|])
  }

  predicate Answered(dialog: Dialog, reply: (nat, Mo) -> Mt) {
    |dialog.produced| <= |dialog.consumed| &&
    forall i :: 0 <= i < |dialog.produced| ==> dialog.produced[i] == reply(i, dialog.consumed[i])
  }

  lemma AnsweredAct(dialog: Dialog, act: Action, hasRoute: bool, mtClosed: bool, reply: (nat, Mo) -> Mt)
    requires Answered(dialog, reply) && CanAct(dialog, act)
    requires act.Produce? ==>
      |dialog.produced| < |dialog.consumed| && act.mt == reply(|dialog.produced|, dialog.consumed[|dialog.produced|])
    ensures Answered(Act(dialog, act, hasRoute, mtClosed), reply)
  {
  }

  lemma OthersKeepReplies(s: State, e: Event, d: DialogId)
    requires Enabled(s, e) && !e.Task? && d < |Next(s, e).dialogs|
    ensures
      var dialog := Next(s, e).dialogs[d];
      if d < |s.dialogs| then dialog.produced == s.dialogs[d].produced && dialog.consumed == s.dialogs[d].consumed
      else dialog.produced == []
  {
  }

  lemma AnsweredStep(s: State, e: Event, reply: (nat, Mo) -> Mt)
    requires Enabled(s, e) && AnswersInOrder(s, e, reply)
    requires forall d :: 0 <= d < |s.dialogs| ==> Answered(s.dialogs[d], reply)
    ensures forall d :: 0 <= d < |Next(s, e).dialogs| ==> Answered(Next(s, e).dialogs[d], reply)
  {
    var s' := Next(s, e);
    match e
    case Task(d, act) =>
      AnsweredAct(s.dialogs[d], act, s.dialogs[d].user in s.routes, s.mtClosed, reply);
    case _ =>
      forall d | 0 <= d < |s'.dialogs|
        ensures Answered(s'.dialogs[d], reply)
      {
        OthersKeepReplies(s, e, d);
        assert d < |s.dialogs| ==> Answered(s.dialogs[d], reply);
      }
  }

  lemma {:induction false} AnsweredAlways(es: seq<Event>, reply: (nat, Mo) -> Mt, i: nat)
    requires Feasible(es) && i <= |es|
    requires forall j :: 0 <= j < i ==> AnswersInOrder(StateAt(es, j), es[j], reply)
    ensures forall d :: 0 <= d < |StateAt(es, i).dialogs| ==> Answered(StateAt(es, i).dialogs[d], reply)
  {
    if i == 0 {
      assert es[..0] == [];
    } else {
      AnsweredAlways(es, reply, i - 1);
      StateAtNext(es, i - 1);
      AnsweredStep(StateAt(es, i - 1), es[i - 1], reply);
    }
  }

  lemma RepliesOfAnswered(dialog: Dialog, got: seq<Mt>, reply: (nat, Mo) -> Mt)
    requires Answered(dialog, reply) && ChannelOk(dialog) && got <= dialog.produced
    ensures |got| <= |dialog.consumed| <= |dialog.sent|
    ensures forall i :: 0 <= i < |got| ==> got[i] == reply(i, dialog.sent[i])
  {
    assert forall i :: 0 <= i < |got| ==> got[i] == dialog.produced[i];
  }

  /** The i-th reply delivered from `d` answers the i-th MO sent to `d`. */
  ghost predicate RepliesInOrder(s: State, d: DialogId, reply: (nat, Mo) -> Mt)
    requires d < |s.dialogs|
  {
    var got := Project(s.delivered, d);
    && |got| <= |s.dialogs[d].consumed| <= |s.dialogs[d].sent|
    && forall i :: 0 <= i < |got| ==> got[i] == reply(i, s.dialogs[d].sent[i])
  }

  /** A state some run leads to in which every reply was produced for the next unanswered MO. */
  ghost predicate ReachableAnswering(s: State, reply: (nat, Mo) -> Mt) {
    exists es :: Feasible(es) && AnswersAlways(es, reply) && After(es) == s
  }

  ghost predicate AnswersAlways(es: seq<Event>, reply: (nat, Mo) -> Mt)
    requires Feasible(es)
  {
    forall j :: 0 <= j < |es| ==> AnswersInOrder(StateAt(es, j), es[j], reply)
  }

  lemma ReachableAnswered(s: State, reply: (nat, Mo) -> Mt)
    requires ReachableAnswering(s, reply)
    ensures Reachable(s) && forall d :: 0 <= d < |s.dialogs| ==> Answered(s.dialogs[d], reply)
  {
    var es :| Feasible(es) && AnswersAlways(es, reply) && After(es) == s;
    assert es[..|es|] == es;
    AnsweredAlways(es, reply, |es|);
    assert StateAt(es, |es|) == s;
  }

  /** With a one-reply-per-message processor, replies come out in the order of the MOs they answer,
      whatever the interleaving. */
  lemma RepliesArriveInOrder(s: State, reply: (nat, Mo) -> Mt, d: DialogId)
    requires ReachableAnswering(s, reply) && d < |s.dialogs|
    ensures RepliesInOrder(s, d, reply)
  {
    ReachableAnswered(s, reply);
    DeliveredIsPrefixOfProduced(s, d);
    ReachableInv(s);
    RepliesOfAnswered(s.dialogs[d], Project(s.delivered, d), reply);
  }
}
