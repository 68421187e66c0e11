/** The subscription object, method by method: each one does exactly its step of the state machine. */
module SubscriptionOperation {
  import opened Basics
  import opened Permissions
  import opened Subscription

  class GraphQLConnectionOperationSubscription {
    const request: Request
    var stopped: bool
    var subscriptionKey: Option<SubscriptionKey>
    var intervalBetweenDeliveries: int
    var lastDelivery: int
    var deliveryTimer: Option<Timer>
    var pendingDelivery: Option<nat>
    var scopedSignalConnections: nat
    var flags: Flags
    // m_thread: its FIFO, where it is, and whether stop() waits for it
    var queue: seq<Task>
    var worker: Worker
    var joining: bool
    // around the object: the schema's registry, posted handlers, the clock
    var registered: bool
    var fired: nat
    var stopsScheduled: nat
    var now: int
    ghost var h: History

    ghost function State(): Sub
      reads this
    {
      Sub(stopped, joining, subscriptionKey, registered, intervalBetweenDeliveries, lastDelivery, deliveryTimer,
          pendingDelivery, fired, scopedSignalConnections, flags, stopsScheduled, queue, worker, now, h)
    }

    ghost predicate Valid()
      reads this
    {
      Inv(request, State())
    }

    constructor (request: Request, now: int)
      ensures this.request == request && fresh(this)
      ensures State() == Started(request, now).(interval := 0, queue := [])
    {
      this.request := request;
      stopped, joining, registered := false, false, false;
      subscriptionKey, deliveryTimer, pendingDelivery := None, None, None;
      intervalBetweenDeliveries, lastDelivery, this.now := 0, 0, now;
      scopedSignalConnections, fired, stopsScheduled := 0, 0, 0;
      flags := Flags(request.disablePermissions, false);
      queue, worker := [], Idle;
      h := History(0, 0, [], [], [], [], None);
    }

    method Start()
      requires State() == Started(request, now).(interval := 0, queue := [])
      modifies this
      ensures Valid() && State() == Started(request, old(now))
      ensures intervalBetweenDeliveries == 5000 && queue == [Subscribe] && worker == Idle && !stopped && !registered
      ensures flags == Flags(request.disablePermissions, false)
    {
      hide Inv;
      assert [] + [Subscribe] == [Subscribe];
      intervalBetweenDeliveries := DEFAULT_INTERVAL;
      queue := queue + [Subscribe];
      StartInv(request, now);
    }

    predicate ShouldDispatchCurrentDelivery(triggers: set<SubscriptionKey>)
      reads this
    {
      subscriptionKey.Some? && subscriptionKey.value in triggers
    }

    /** Never negative, and waiting that long completes the interval. */
    function CalculateTimeRemainingToDeliver(): (d: int)
      reads this
      ensures d >= 0 && now + d >= lastDelivery + intervalBetweenDeliveries
      ensures d == 0 || now + d == lastDelivery + intervalBetweenDeliveries
    {
      var timeSinceLastDelivery := now - lastDelivery;
      Max(0, intervalBetweenDeliveries - timeSinceLastDelivery)
    }

    /** `future` is named by the number of results accepted before it. */
    method OnFutureSubscription(triggers: set<SubscriptionKey>, delay: nat, future: nat)
      requires Valid() && Enabled(State(), OnFuture(triggers, delay)) && future == h.accepted
      modifies this`pendingDelivery, this`deliveryTimer, this`h
      ensures Valid() && State() == Next(request, old(State()), OnFuture(triggers, delay))
      ensures old(deliveryTimer.Some?) ==> deliveryTimer == old(deliveryTimer)
      ensures h.accepted > old(h.accepted) ==> pendingDelivery == Some(future) && deliveryTimer.Some?
      ensures h.accepted == old(h.accepted) ==> State() == old(State())
      ensures queue == old(queue) && h.sent == old(h.sent)
      ensures h.accepted > old(h.accepted) <==>
        !stopped && subscriptionKey.Some? && subscriptionKey.value in triggers
      ensures old(deliveryTimer.None?) && deliveryTimer.Some? ==>
        && !deliveryTimer.value.expired
        && deliveryTimer.value.deadline == delay + if lastDelivery + intervalBetweenDeliveries > now
                                                   then lastDelivery + intervalBetweenDeliveries else now
    {
      hide Inv, Checked, BatchStart;
      StepInv(request, State(), OnFuture(triggers, delay));
      if stopped {
        return;
      }
      if !ShouldDispatchCurrentDelivery(triggers) {
        return;
      }
      var timeRemainingToDeliver := CalculateTimeRemainingToDeliver();
      pendingDelivery := Some(future);
      h := h.(accepted := h.accepted + 1);
      if deliveryTimer.Some? {
        return;
      }
      deliveryTimer := Some(Timer(now + delay + timeRemainingToDeliver, false));
      h := h.(armedInterval := intervalBetweenDeliveries);
    }

    method TimerExpired()
      requires Valid() && Enabled(State(), TimerExpires)
      modifies this`deliveryTimer, this`fired
      ensures Valid() && State() == Next(request, old(State()), TimerExpires)
      ensures fired == old(fired) + 1 && old(deliveryTimer).Some?
      ensures deliveryTimer == Some(Timer(old(deliveryTimer).value.deadline, true))
    {
      hide Inv;
      StepInv(request, State(), TimerExpires);
      deliveryTimer := Some(deliveryTimer.value.(expired := true));
      fired := fired + 1;
    }

    method DispatchPendingDelivery()
      requires Valid() && Enabled(State(), TimerHandler)
      modifies this`fired, this`lastDelivery, this`deliveryTimer, this`pendingDelivery, this`queue, this`h
      ensures Valid() && State() == Next(request, old(State()), TimerHandler)
      ensures !stopped ==> old(h.accepted) > 0 && pendingDelivery.None? && deliveryTimer.None? && lastDelivery == now
      ensures !stopped ==> queue == old(queue) + [Resolve(Result(old(h.accepted) - 1))]
      ensures stopped ==> queue == old(queue) && h == old(h)
      ensures fired == old(fired) - 1
    {
      hide Inv, Next, Enabled, BatchStart, PendingPayload;
      TimerHandlerStep(request, State());
      NewestPending(request, State());
      fired := fired - 1;
      if stopped {
        return;
      }
      HandOverPending();
    }

    /** The pending result goes to the worker, and the timer is gone. */
    method HandOverPending()
      requires !stopped
      modifies this`lastDelivery, this`deliveryTimer, this`pendingDelivery, this`queue, this`h
      ensures State() == DispatchPending(old(State()))
    {
      hide BatchStart, PendingPayload;
      var payload := PendingPayload(pendingDelivery);
      lastDelivery := now;
      deliveryTimer := None;
      pendingDelivery := None;
      queue := queue + [Resolve(payload)];
      h := h.(sent := h.sent + [payload],
              dispatches := h.dispatches + [Dispatch(now, h.armedInterval, BatchStart(h.dispatches), h.accepted)]);
    }

    /** Up to the join, which returns in `JoinReturned`; a second stop changes nothing. */
    method Stop()
      requires Valid() && Enabled(State(), Event.Stop)
      modifies this`stopped, this`deliveryTimer, this`pendingDelivery, this`queue, this`joining
      ensures Valid() && State() == Next(request, old(State()), Event.Stop)
      ensures old(stopped) ==> State() == old(State())
      ensures stopped && deliveryTimer.None? && pendingDelivery.None? && h == old(h)
      ensures !old(stopped) ==> joining && queue == old(queue) + [Unsubscribe]
    {
      hide Inv;
      StepInv(request, State(), Event.Stop);
      StoppedHoldsNothing(request, State());
      if stopped {
        return;
      }
      stopped := true;
      deliveryTimer := None;
      pendingDelivery := None;
      queue := queue + [Unsubscribe];
      joining := true;
    }

    /** What `m_handlers.defer` runs after a failed permission check. */
    method RunDeferredStop()
      requires Valid() && Enabled(State(), DeferredStop)
      modifies this`stopsScheduled, this`stopped, this`deliveryTimer, this`pendingDelivery, this`queue, this`joining
      ensures Valid() && State() == Next(request, old(State()), DeferredStop)
      ensures stopped && deliveryTimer.None? && pendingDelivery.None? && h == old(h)
      ensures stopsScheduled == old(stopsScheduled) - 1
    {
      hide Inv;
      StopNotCounted(request, State());
      stopsScheduled := stopsScheduled - 1;
      Stop();
    }

    /** `stop()` returns: nothing the subscription held is left. */
    method JoinReturned()
      requires Valid() && Enabled(State(), JoinReturns)
      modifies this`joining
      ensures Valid() && State() == Next(request, old(State()), JoinReturns) && Released(State()) && !joining
    {
      hide Inv;
      InvQueue(request, State());
      JoiningStopped(State());
      StepInv(request, State(), JoinReturns);
      joining := false;
      JoinReleases(request, State());
    }

    method RunTask() returns (task: Task)
      requires Valid() && Enabled(State(), TakeTask)
      modifies this`queue, this`worker, this`scopedSignalConnections, this`registered
      ensures Valid() && State() == Next(request, old(State()), TakeTask)
      ensures old(queue) == [task] + queue
      ensures task.Unsubscribe? ==> stopped && queue == [] && scopedSignalConnections == 0 && !registered
      ensures task.Resolve? ==> worker == Copied(task.payload)
      ensures task.Subscribe? ==> worker == if stopped then Idle else Subscribing
      ensures !task.Unsubscribe? ==> scopedSignalConnections == old(scopedSignalConnections) && registered == old(registered)
      ensures task.Unsubscribe? ==> worker == Idle
    {
      hide Inv;
      UnsubscribeIsLast(request, State());
      StepInv(request, State(), TakeTask);
      task := queue[0];
      queue := queue[1..];
      match task
      case Subscribe =>
        if !stopped {
          worker := Subscribing;
        }
      case Resolve(payload) =>
        worker := Copied(payload);
      case Unsubscribe =>
        scopedSignalConnections := 0;
        registered := false;
    }

    method SchemaRegisters(newKey: SubscriptionKey)
      requires Valid() && Enabled(State(), Register(newKey))
      modifies this`registered, this`worker
      ensures Valid() && State() == Next(request, old(State()), Register(newKey))
      ensures registered && worker == Registered(newKey) && subscriptionKey == old(subscriptionKey)
    {
      hide Inv;
      StepInv(request, State(), Register(newKey));
      registered := true;
      worker := Registered(newKey);
    }

    method SubscribeReturns()
      requires Valid() && Enabled(State(), SubscribeDone)
      modifies this`subscriptionKey, this`worker
      ensures Valid() && State() == Next(request, old(State()), SubscribeDone)
      ensures registered && subscriptionKey.Some? && old(worker) == Registered(subscriptionKey.value)
      ensures worker == Idle
    {
      hide Inv;
      RegisteredBefore(request, State());
      StepInv(request, State(), SubscribeDone);
      subscriptionKey := Some(worker.newKey);
      worker := Idle;
    }

    /** A schema exception: the errors take the way of a result. */
    method SubscribeThrows()
      requires Valid() && Enabled(State(), SubscribeRefused)
      modifies this`pendingDelivery, this`h, this`worker
      ensures Valid() && State() == Next(request, old(State()), SubscribeRefused)
      ensures h.sent == [SchemaErrors] && !registered && subscriptionKey.None?
      ensures worker == Copied(SchemaErrors) && pendingDelivery.None?
    {
      hide Inv;
      NothingSentYet(request, State());
      StepInv(request, State(), SubscribeRefused);
      pendingDelivery := None;
      h := h.(sent := h.sent + [SchemaErrors]);
      worker := Copied(SchemaErrors);
    }

    method ResolverValidates(required: seq<Permission>) returns (verdict: Verdict)
      requires Valid() && Enabled(State(), Validate(required))
      modifies this`flags, this`h
      ensures Valid() && State() == Next(request, old(State()), Validate(required))
      ensures verdict == Checked(old(flags), request.permissions, required).0
      ensures old(flags.didCheck) || old(flags.failed) ==> flags == old(flags)
      ensures verdict == Allowed <==> old(flags.didCheck) || HasAll(request.permissions, required)
      ensures verdict == NotAuthenticated <==> !old(flags.didCheck) && request.permissions.None?
      ensures flags.failed <==> old(flags.failed) || verdict != Allowed
      ensures flags.didCheck == old(flags.didCheck) && h == old(h).(checks := old(h.checks) + [required])
    {
      hide Inv, Checked;
      CheckAnswers(flags, request.permissions, required);
      Sticks(flags, request.permissions, required);
      StepInv(request, State(), Validate(required));
      var checked := Checked(flags, request.permissions, required);
      verdict, flags := checked.0, checked.1;
      h := h.(checks := h.checks + [required]);
    }

    method SetSubscriptionIntervalBetweenDeliveries(interval: int)
      requires Valid() && Enabled(State(), SetInterval(interval))
      modifies this`intervalBetweenDeliveries
      ensures Valid() && State() == Next(request, old(State()), SetInterval(interval))
      ensures intervalBetweenDeliveries == interval && deliveryTimer == old(deliveryTimer)
    {
      hide Inv;
      StepInv(request, State(), SetInterval(interval));
      intervalBetweenDeliveries := interval;
    }

    method AddScopedSignalConnection()
      requires Valid() && Enabled(State(), Observe)
      modifies this`scopedSignalConnections
      ensures Valid() && State() == Next(request, old(State()), Observe)
      ensures scopedSignalConnections == old(scopedSignalConnections) + 1
    {
      hide Inv;
      StepInv(request, State(), Observe);
      scopedSignalConnections := scopedSignalConnections + 1;
    }

    /** Both tests of m_stopped in `resolveSubscriptionInAThread`. */
    method ResolutionTestsStopped()
      requires Valid() && Enabled(State(), TestStopped)
      modifies this`worker
      ensures Valid() && State() == Next(request, old(State()), TestStopped)
      ensures worker.Idle? <==> stopped
      ensures worker.Passed? ==> old(worker) == Resolved(worker.payload)
      ensures !stopped && old(worker.Copied?) ==> worker.Resolving? && old(worker) == Copied(worker.payload)
      ensures !stopped && old(worker.Resolved?) ==> worker.Passed?
    {
      hide Inv;
      StepInv(request, State(), TestStopped);
      if stopped {
        worker := Idle;
      } else if worker.Copied? {
        worker := Resolving(worker.payload);
      } else {
        worker := Passed(worker.payload);
      }
    }

    method ResolutionReturns()
      requires Valid() && Enabled(State(), ResolutionDone)
      modifies this`worker
      ensures Valid() && State() == Next(request, old(State()), ResolutionDone)
      ensures worker.Resolved? && old(worker) == Resolving(worker.payload)
    {
      hide Inv;
      StepInv(request, State(), ResolutionDone);
      worker := Resolved(worker.payload);
    }

    method ResolutionReplies() returns (payload: Payload)
      requires Valid() && Enabled(State(), Reply)
      modifies this`worker, this`h
      ensures Valid() && State() == Next(request, old(State()), Reply)
      ensures old(worker) == Passed(payload) && h.replies == old(h.replies) + [payload]
      ensures worker == Replied
    {
      hide Inv;
      StepInv(request, State(), Reply);
      payload := worker.payload;
      h := h.(replies := h.replies + [payload]);
      worker := Replied;
    }

    method ResolutionChecksFlags()
      requires Valid() && Enabled(State(), CheckFlags)
      modifies this`h, this`flags, this`stopsScheduled, this`worker
      ensures Valid() && State() == Next(request, old(State()), CheckFlags)
      ensures old(flags.failed) ==> flags == Flags(false, true) && stopsScheduled == old(stopsScheduled) + 1
      ensures !old(flags.failed) ==> flags == Flags(true, false) && stopsScheduled == old(stopsScheduled)
      ensures worker == Idle
    {
      hide Inv;
      NeverBothFlags(request, State());
      StepInv(request, State(), CheckFlags);
      if !flags.failed {
        h := h.(latched := if flags.didCheck then h.latched else Some(|h.checks|));
        flags := flags.(didCheck := true);
      } else {
        stopsScheduled := stopsScheduled + 1;
      }
      worker := Idle;
    }
  }

  /** The handler finds the newest accepted result pending. */
  lemma NewestPending(request: Request, s: Sub)
    requires Inv(request, s) && Enabled(s, TimerHandler)
    ensures !s.stopped ==> s.h.accepted > 0 && PendingPayload(s.pending) == Result(s.h.accepted - 1)
  {
    hide RateInv, QueueInv, SentInv, ReplyInv, PermissionInv;
  }

  lemma UnsubscribeIsLast(request: Request, s: Sub)
    requires Inv(request, s) && s.queue != []
    ensures s.queue[0].Unsubscribe? ==> s.stopped && s.queue[1..] == []
    ensures s.queue == [s.queue[0]] + s.queue[1..]
  {
    hide DeliveryInv, RateInv, SentInv, ReplyInv, PermissionInv;
  }

  lemma RegisteredBefore(request: Request, s: Sub)
    requires Inv(request, s) && s.worker.Registered?
    ensures s.registered
  {
    hide DeliveryInv, RateInv, SentInv, ReplyInv, PermissionInv;
  }

  lemma NothingSentYet(request: Request, s: Sub)
    requires Inv(request, s) && s.worker.Subscribing?
    ensures s.h.sent == [] && !s.registered && s.key.None?
  {
    hide DeliveryInv, RateInv, ReplyInv, PermissionInv;
  }

  lemma NeverBothFlags(request: Request, s: Sub)
    requires Inv(request, s)
    ensures s.flags.failed ==> !s.flags.didCheck
  {
    hide DeliveryInv, RateInv, QueueInv, SentInv, ReplyInv, AllPermitted;
  }

  lemma StoppedHoldsNothing(request: Request, s: Sub)
    requires Inv(request, s)
    ensures s.stopped ==> s.timer.None? && s.pending.None?
  {
    hide RateInv, QueueInv, SentInv, ReplyInv, PermissionInv;
  }

  lemma TimerHandlerStep(request: Request, s: Sub)
    requires Inv(request, s) && Enabled(s, TimerHandler)
    ensures s.fired > 0 && Next(request, s, TimerHandler) == DispatchPending(s.(fired := s.fired - 1))
    ensures Inv(request, Next(request, s, TimerHandler))
  {
    StepInv(request, s, TimerHandler);
  }
}
