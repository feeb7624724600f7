/** The router object itself: its fields, updated in place, proved against the step machine. */
module UserRouter {
  import opened Wrappers
  import opened Router
  import opened RouterSafety

  /** MOs waiting in the channels registered for the users `us`. */
  ghost function QueuedMos(routes: map<UserId, DialogId>, dialogs: seq<Dialog>, us: set<UserId>): nat
    requires us <= routes.Keys
    requires forall u :: u in routes ==> routes[u] < |dialogs|
  {
    if us == {} then 0
    else
      var u :| u in us;
      |dialogs[routes[u]].channel.queue| + QueuedMos(routes, dialogs, us - {u})
  }

  /** The total does not depend on the order in which the map is visited. */
  lemma {:induction false} QueuedMosRemove(routes: map<UserId, DialogId>, dialogs: seq<Dialog>, us: set<UserId>, u: UserId)
    requires u in us && us <= routes.Keys
    requires forall u :: u in routes ==> routes[u] < |dialogs|
    ensures QueuedMos(routes, dialogs, us) == |dialogs[routes[u]].channel.queue| + QueuedMos(routes, dialogs, us - {u})
  {
    var v :| v in us && QueuedMos(routes, dialogs, us) == |dialogs[routes[v]].channel.queue| + QueuedMos(routes, dialogs, us - {v});
    if u != v {
      QueuedMosRemove(routes, dialogs, us - {v}, u);
      QueuedMosRemove(routes, dialogs, us - {u}, v);
      assert us - {v} - {u} == us - {u} - {v};
    }
  }

  lemma {:induction false} NothingQueuedExactly(routes: map<UserId, DialogId>, dialogs: seq<Dialog>, us: set<UserId>)
    requires us <= routes.Keys
    requires forall u :: u in routes ==> routes[u] < |dialogs|
    ensures QueuedMos(routes, dialogs, us) == 0 <==> forall u :: u in us ==> dialogs[routes[u]].channel.queue == []
  {
    if us == {} {
    } else {
      var u :| u in us;
      QueuedMosRemove(routes, dialogs, us, u);
      NothingQueuedExactly(routes, dialogs, us - {u});
      assert forall v :: v in us ==> v == u || v in us - {u};
    }
  }

  /** One uninterrupted `route_mo` in terms of the step machine. */
  predicate RouteEnabled(s: State, mo: Mo) {
    s.pc.Idle? && Enabled(LookupStep(Next(s, Arrive(mo))), Send)
  }

  function AfterRoute(s: State, mo: Mo): State
    requires RouteEnabled(s, mo)
  {
    SendStep(LookupStep(Next(s, Arrive(mo))))
  }

  lemma RouteIsEnabled(s: State, mo: Mo)
    requires RoutesOk(s) && s.pc.Idle?
    ensures RouteEnabled(s, mo)
  {
    assert mo.sender in s.routes ==> Latest(s.dialogs, mo.sender, s.routes[mo.sender]);
  }

  class Service {
    var perUserMoTx: map<UserId, DialogId>
    var dialogs: seq<Dialog>
    var pc: RouterPc
    var mtQueue: seq<Tagged>
    var mtClosed: bool
    ghost var arrived: seq<Mo>
    ghost var outcomes: seq<Outcome>
    ghost var delivered: seq<Tagged>

    ghost function View(): State
      reads this
    {
      State(perUserMoTx, dialogs, pc, arrived, outcomes, mtQueue, mtClosed, delivered)
    }

    constructor ()
      ensures View() == INIT
    {
      perUserMoTx, dialogs, pc := map[], [], Idle;
      mtQueue, mtClosed := [], false;
      arrived, outcomes, delivered := [], [], [];
    }

    /** The critical section of `route_mo`: find the sender's channel, or create and register one. */
    method FindOrCreateDialog(mo: Mo) returns (d: DialogId, created: bool)
      requires pc == Routing(mo)
      modifies this`perUserMoTx, this`dialogs, this`pc
      ensures View() == LookupStep(old(View())) && pc == Sending(mo, d, created)
      ensures created == (mo.sender !in old(perUserMoTx))
    {
      created := mo.sender !in perUserMoTx;
      if created {
        d := |dialogs|;
        perUserMoTx := perUserMoTx[mo.sender := d];
        dialogs := dialogs + [NewDialog(mo)];
      } else {
        d := perUserMoTx[mo.sender];
      }
      pc := Sending(mo, d, created);
    }

    /** `route_mo` without interference: the lookup under the lock, then the send. A dialog is returned
        exactly when the sender had no route. */
    method RouteMo(mo: Mo) returns (newDialog: Option<DialogId>)
      requires RoutesOk(View()) && pc.Idle?
      modifies this
      ensures RouteEnabled(old(View()), mo) && View() == AfterRoute(old(View()), mo)
      ensures newDialog == (if mo.sender in old(perUserMoTx) then None else Some(|old(dialogs)|))
    {
      RouteIsEnabled(View(), mo);
      arrived := arrived + [mo];
      pc := Routing(mo);
      var d, created := FindOrCreateDialog(mo);
      newDialog := if created then Some(d) else None;
      SendMo(mo, d);
    }

    method SendMo(mo: Mo, d: DialogId)
      requires d < |dialogs| && pc.Sending? && pc.mo == mo && pc.dialog == d
      modifies this
      ensures View() == SendStep(old(View()))
    {
      var ok := !dialogs[d].channel.closed;
      if ok {
        dialogs := dialogs[d := Accept(dialogs[d], mo)];
      } else {
        dialogs := dialogs[d := CloseChannel(dialogs[d])];
      }
      outcomes := outcomes + [Outcome(mo, d, ok)];
      pc := if pc.isNew then Spawning(d) else Idle;
    }

    /** The half of `close_dialog` under the lock, from either call site. */
    method RemoveRoute(d: DialogId, final: bool) returns (had: bool)
      requires Enabled(View(), Task(d, if final then FinalUnlink else IdleUnlink))
      modifies this`perUserMoTx, this`dialogs
      ensures had == (old(dialogs)[d].user in old(perUserMoTx))
      ensures View() == Next(old(View()), Task(d, if final then FinalUnlink else IdleUnlink))
    {
      var dialog := dialogs[d];
      had := dialog.user in perUserMoTx;
      perUserMoTx := perUserMoTx - {dialog.user};
      dialogs := dialogs[d := if final then dialog.(phase := FinalUnlinked(had)) else dialog.(phase := IdleUnlinked(had), idled := true)];
    }

    /** The half after the lock is released: the sender is closed if a route was found. */
    method CloseSender(d: DialogId, final: bool, had: bool)
      requires Enabled(View(), Task(d, if final then FinalClose else IdleClose)) && had == dialogs[d].phase.had
      modifies this`dialogs
      ensures View() == Next(old(View()), Task(d, if final then FinalClose else IdleClose))
    {
      var dialog := dialogs[d];
      if had {
        dialog := CloseChannel(dialog);
      }
      dialogs := dialogs[d := dialog.(phase := if final then Done else Draining)];
    }

    /** `close_dialog` when nothing comes between its halves. */
    method CloseDialog(d: DialogId, final: bool) returns (had: bool)
      requires Enabled(View(), Task(d, if final then FinalUnlink else IdleUnlink))
      modifies this`perUserMoTx, this`dialogs
      ensures had == (old(dialogs)[d].user in old(perUserMoTx))
      ensures
        var s1 := Next(old(View()), Task(d, if final then FinalUnlink else IdleUnlink));
        var second := Task(d, if final then FinalClose else IdleClose);
        Enabled(s1, second) && View() == Next(s1, second)
    {
      had := RemoveRoute(d, final);
      CloseSender(d, final, had);
    }

    /** One turn of a dialog's `for_each`: the reply goes to the merged channel once that has room, and is
        lost, with the loop going on, once the channel is closed. */
    method PushMt(d: DialogId)
      requires Enabled(View(), Task(d, SendMt))
      modifies this`dialogs, this`mtQueue
      ensures View() == Next(old(View()), Task(d, SendMt))
      ensures |old(mtQueue)| <= MT_CAPACITY ==> |mtQueue| <= MT_CAPACITY
    {
      var dialog := dialogs[d];
      var mt := dialog.pending.value;
      if mtClosed {
        dialog := dialog.(lost := dialog.lost + [mt]);
      } else {
        mtQueue := mtQueue + [Tagged(d, mt)];
        dialog := dialog.(accepted := dialog.accepted + [mt]);
      }
      dialogs := dialogs[d := dialog.(pending := None)];
    }

    /** The fold of the shutdown loop over the map's values. */
    method RemainingMos() returns (n: nat)
      requires RoutesOk(View())
      ensures n == QueuedMos(perUserMoTx, dialogs, perUserMoTx.Keys)
      ensures n == 0 <==> forall u :: u in perUserMoTx ==> dialogs[perUserMoTx[u]].channel.queue == []
    {
      assert forall u :: u in perUserMoTx ==> Latest(dialogs, u, perUserMoTx[u]);
      n := 0;
      var left := perUserMoTx.Keys;
      while left != {}
        invariant left <= perUserMoTx.Keys
        invariant n + QueuedMos(perUserMoTx, dialogs, left) == QueuedMos(perUserMoTx, dialogs, perUserMoTx.Keys)
        decreases left
      {
        var u :| u in left;
        QueuedMosRemove(perUserMoTx, dialogs, left, u);
        n := n + |dialogs[perUserMoTx[u]].channel.queue|;
        left := left - {u};
      }
      NothingQueuedExactly(perUserMoTx, dialogs, perUserMoTx.Keys);
    }

    /** What a round of the shutdown loop finds left: MOs in the registered channels and MTs in the merged one. */
    method Remaining() returns (n: nat)
      requires RoutesOk(View())
      ensures n == QueuedMos(perUserMoTx, dialogs, perUserMoTx.Keys) + |mtQueue|
      ensures n == 0 <==> mtQueue == [] && forall u :: u in perUserMoTx ==> dialogs[perUserMoTx[u]].channel.queue == []
    {
      var mos := RemainingMos();
      n := mos + |mtQueue|;
    }

    /** The end of the shutdown loop: every registered channel is closed, nothing else changes. */
    method CloseAllRoutes()
      requires RoutesOk(View()) && pc.Stopped?
      modifies this`dialogs, this`pc
      ensures View() == Next(old(View()), CloseRoutes)
    {
      ghost var was := dialogs;
      assert forall u :: u in perUserMoTx ==> Latest(dialogs, u, perUserMoTx[u]);
      var left := perUserMoTx.Keys;
      while left != {}
        invariant left <= perUserMoTx.Keys
        invariant |dialogs| == |was|
        invariant forall d :: 0 <= d < |was| ==>
          dialogs[d] == if Registered(perUserMoTx, was, d) && was[d].user !in left then CloseChannel(was[d]) else was[d]
        decreases left
      {
        var u :| u in left;
        var d := perUserMoTx[u];
        assert Latest(was, u, d);
        dialogs := dialogs[d := CloseChannel(dialogs[d])];
        left := left - {u};
      }
      pc := RoutesClosed;
      assert dialogs == CloseRegistered(perUserMoTx, was);
    }

    /** The very end of it: the merged channel refuses sends but keeps what it holds. */
    method CloseMtChannel()
      requires pc.RoutesClosed?
      modifies this`mtClosed, this`pc
      ensures View() == Next(old(View()), CloseMts)
      ensures mtClosed && pc.Finished?
    {
      mtClosed := true;
      pc := Finished;
    }
  }

  /** Rounds of the shutdown loop, in milliseconds: `elapsed(k)` and `remaining(k)` are what the k-th
      round reads, and rounds that go on sleep for a second in between. */
  function SleepLimit(grace: nat): nat {
    (grace + 999) / 1000
  }

  /** The loop ends in the first round that finds the grace period over or nothing left; it sleeps at
      most once per started second of grace, and no announced wait underflows. */
  method AwaitDrain(grace: nat, elapsed: nat -> nat, remaining: nat -> nat) returns (round: nat, waits: seq<nat>)
    requires forall k: nat :: elapsed(k) + 1000 <= elapsed(k + 1)
    ensures elapsed(round) >= grace || remaining(round) == 0
    ensures forall k: nat :: k < round ==> elapsed(k) < grace && remaining(k) > 0
    ensures |waits| == round <= SleepLimit(grace)
    ensures forall k :: 0 <= k < round ==> 0 < waits[k] == grace - elapsed(k)
  {
    round, waits := 0, [];
    while true
      invariant forall k: nat :: k < round ==> elapsed(k) < grace && remaining(k) > 0
      invariant |waits| == round && 1000 * round <= elapsed(round)
      invariant forall k :: 0 <= k < round ==> 0 < waits[k] == grace - elapsed(k)
      invariant round <= SleepLimit(grace)
      decreases SleepLimit(grace) - round
    {
      if elapsed(round) >= grace {
        break;
      } else if remaining(round) > 0 {
        waits := waits + [grace - elapsed(round)];
        assert elapsed(round) + 1000 <= elapsed(round + 1);
        round := round + 1;
        continue;
      }
      break;
    }
  }
}
