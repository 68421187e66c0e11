/**
  A subscription: rate-limited delivery on the main thread and one FIFO worker.

  Every event is one atomic access pattern of the main thread, the worker or the timer; the state
  machine interleaves them freely.  While the main thread is inside `stop()` waiting for the worker
  (`joining`), it takes no other event.
 */
module Subscription {
  import opened Basics
  import opened Permissions

  type SubscriptionKey = nat

  /**
    What is sent to the client: the n-th accepted result, or the errors of a refused subscription.
    `Nothing` is a future that was moved away, which must never be resolved.
   */
  datatype Payload = Result(n: nat) | SchemaErrors | Nothing

  datatype Task = Subscribe | Resolve(payload: Payload) | Unsubscribe

  /** Where the worker is inside its current task. */
  datatype Worker =
    | Idle
    | Subscribing
    | Registered(newKey: SubscriptionKey) // known to the schema, m_subscriptionKey not assigned yet
    | Copied(payload: Payload)            // onReply copied, m_stopped not tested yet
    | Resolving(payload: Payload)         // inside futureResponse.get()
    | Resolved(payload: Payload)          // about to test m_stopped again
    | Passed(payload: Payload)            // about to reply
    | Replied                             // about to look at the permission flags

  datatype Timer = Timer(deadline: int, expired: bool)

  /** The dispatch at `time` of the accepted results `from..to`, with the interval in force when its timer was armed. */
  datatype Dispatch = Dispatch(time: int, interval: int, from: nat, to: nat)

  /** What happened so far; nothing in the program reads it. */
  datatype History = History(
    accepted: nat,
    armedInterval: int,
    dispatches: seq<Dispatch>,
    sent: seq<Payload>,
    replies: seq<Payload>,
    checks: seq<seq<Permission>>,
    latched: Option<nat>)

  datatype Sub = Sub(
    stopped: bool,
    joining: bool,
    key: Option<SubscriptionKey>,
    registered: bool,
    interval: int,
    lastDelivery: int,
    timer: Option<Timer>,
    pending: Option<nat>,
    fired: nat,
    connections: nat,
    flags: Flags,
    stopsScheduled: nat,
    queue: seq<Task>,
    worker: Worker,
    now: int,
    h: History)

  /** What a request brings along: its permissions and whether checks are compiled out. */
  datatype Request = Request(permissions: Option<set<Permission>>, disablePermissions: bool)

  datatype Event =
    // main thread
    | OnFuture(triggers: set<SubscriptionKey>, delay: nat)
    | TimerHandler
    | Stop
    | DeferredStop
    | JoinReturns
    // worker
    | TakeTask
    | Register(newKey: SubscriptionKey)
    | SubscribeDone
    | SubscribeRefused
    | Validate(required: seq<Permission>)
    | SetInterval(newInterval: int)
    | Observe
    | TestStopped
    | ResolutionDone
    | Reply
    | CheckFlags
    // time
    | TimerExpires
    | Tick(d: nat)

  const DEFAULT_INTERVAL := 5000

  /** After `start()`. */
  function Started(rq: Request, now: int): Sub {
    Sub(false, false, None, false, DEFAULT_INTERVAL, 0, None, None, 0, 0, Flags(rq.disablePermissions, false), 0, [Subscribe],
        Idle, now, History(0, 0, [], [], [], [], None))
  }

  function Max(a: int, b: int): int {
    if a > b then a else b
  }

  function BatchStart(ds: seq<Dispatch>): nat {
    if ds == [] then 0 else ds[|ds| - 1].to
  }

  /** A result arrives while the triggers of the current notification are `triggers`. */
  function Accept(s: Sub, triggers: set<SubscriptionKey>, delay: nat): Sub {
    if s.stopped || s.key.None? || s.key.value !in triggers then s
    else
      var s1 := s.(pending := Some(s.h.accepted), h := s.h.(accepted := s.h.accepted + 1));
      if s.timer.Some? then s1
      else
        s1.(timer := Some(Timer(s.now + delay + Max(0, s.interval - (s.now - s.lastDelivery)), false)),
            h := s1.h.(armedInterval := s.interval))
  }

  function PendingPayload(pending: Option<nat>): Payload {
    if pending.Some? then Result(pending.value) else Nothing
  }

  function DispatchPending(s: Sub): Sub {
    if s.stopped then s
    else
      s.(lastDelivery := s.now, timer := None, pending := None,
         queue := s.queue + [Resolve(PendingPayload(s.pending))],
         h := s.h.(sent := s.h.sent + [PendingPayload(s.pending)],
                   dispatches := s.h.dispatches
                                 + [Dispatch(s.now, s.h.armedInterval, BatchStart(s.h.dispatches), s.h.accepted)]))
  }

  /** `stop()` up to the join. */
  function StopNow(s: Sub): Sub {
    if s.stopped then s
    else s.(stopped := true, timer := None, pending := None, queue := s.queue + [Unsubscribe], joining := true)
  }

  function Take(s: Sub): Sub
    requires s.queue != []
  {
    var s1 := s.(queue := s.queue[1..]);
    match s.queue[0]
    case Subscribe => if s.stopped then s1 else s1.(worker := Subscribing)
    case Resolve(p) => s1.(worker := Copied(p))
    case Unsubscribe => s1.(connections := 0, registered := false)
  }

  function Checks(rq: Request, s: Sub, required: seq<Permission>): Sub {
    s.(flags := Checked(s.flags, rq.permissions, required).1, h := s.h.(checks := s.h.checks + [required]))
  }

  function Latch(s: Sub): Sub {
    if s.flags.failed then s.(stopsScheduled := s.stopsScheduled + 1, worker := Idle)
    else
      s.(flags := s.flags.(didCheck := true), worker := Idle,
         h := s.h.(latched := if s.flags.didCheck then s.h.latched else Some(|s.h.checks|)))
  }

  ghost predicate Enabled(s: Sub, e: Event) {
    match e
    case OnFuture(_, _) => s.registered && !s.joining
    case TimerHandler => s.fired > 0 && !s.joining
    case Stop => !s.joining
    case DeferredStop => s.stopsScheduled > 0 && !s.joining
    case JoinReturns => s.joining && s.queue == [] && s.worker.Idle?
    case TakeTask => s.queue != [] && s.worker.Idle?
    case Register(_) => s.worker.Subscribing?
    case SubscribeDone => s.worker.Registered?
    case SubscribeRefused => s.worker.Subscribing?
    case Validate(_) => s.worker.Subscribing? || s.worker.Resolving?
    case SetInterval(_) => s.worker.Subscribing? || s.worker.Resolving?
    case Observe => s.worker.Subscribing? || s.worker.Resolving?
    case TestStopped => s.worker.Copied? || s.worker.Resolved?
    case ResolutionDone => s.worker.Resolving?
    case Reply => s.worker.Passed?
    case CheckFlags => s.worker.Replied?
    case TimerExpires => s.timer.Some? && !s.timer.value.expired && s.timer.value.deadline <= s.now
    case Tick(_) => true
  }

  function Next(rq: Request, s: Sub, e: Event): Sub
    requires Enabled(s, e)
  {
    match e
    case OnFuture(triggers, delay) => Accept(s, triggers, delay)
    case TimerHandler => DispatchPending(s.(fired := s.fired - 1))
    case Stop => StopNow(s)
    case DeferredStop => StopNow(s.(stopsScheduled := s.stopsScheduled - 1))
    case JoinReturns => s.(joining := false)
    case TakeTask => Take(s)
    case Register(newKey) => s.(registered := true, worker := Registered(newKey))
    case SubscribeDone => s.(key := Some(s.worker.newKey), worker := Idle)
    case SubscribeRefused => s.(pending := None, worker := Copied(SchemaErrors), h := s.h.(sent := s.h.sent + [SchemaErrors]))
    case Validate(required) => Checks(rq, s, required)
    case SetInterval(i) => s.(interval := i)
    case Observe => s.(connections := s.connections + 1)
    case TestStopped =>
      if s.stopped then s.(worker := Idle)
      else if s.worker.Copied? then s.(worker := Resolving(s.worker.payload))
      else s.(worker := Passed(s.worker.payload))
    case ResolutionDone => s.(worker := Resolved(s.worker.payload))
    case Reply => s.(worker := Replied, h := s.h.(replies := s.h.replies + [s.worker.payload]))
    case CheckFlags => Latch(s)
    case TimerExpires => s.(timer := Some(s.timer.value.(expired := true)), fired := s.fired + 1)
    case Tick(d) => s.(now := s.now + d)
  }

  ghost predicate Steps(rq: Request, ss: seq<Sub>, es: seq<Event>) {
    |ss| == |es| + 1 && forall i | 0 <= i < |es| :: Enabled(ss[i], es[i]) && ss[i + 1] == Next(rq, ss[i], es[i])
  }

  ghost predicate IsRun(rq: Request, ss: seq<Sub>, es: seq<Event>) {
    Steps(rq, ss, es) && exists now :: ss[0] == Started(rq, now)
  }

  // ---------------------------------------------------------------- the invariant

  /** While it runs: a timer is armed iff a result is pending, and that is the latest one. */
  ghost predicate DeliveryInv(s: Sub) {
    && (s.timer.Some? <==> s.pending.Some?)
    && (s.stopped ==> s.timer.None?)
    && BatchStart(s.h.dispatches) <= s.h.accepted
    && (s.pending.Some? ==> s.pending.value == s.h.accepted - 1 && BatchStart(s.h.dispatches) < s.h.accepted)
    && (!s.stopped && s.pending.None? ==> BatchStart(s.h.dispatches) == s.h.accepted && s.fired == 0)
    && (s.timer.Some? ==> s.fired == (if s.timer.value.expired then 1 else 0))
    && (s.timer.Some? && s.timer.value.expired ==> s.timer.value.deadline <= s.now)
  }

  /** Dispatches take the accepted results in consecutive batches and keep the interval between them. */
  ghost predicate DispatchesOk(ds: seq<Dispatch>) {
    && (forall i | 0 <= i < |ds| :: ds[i].from < ds[i].to)
    && (forall i | 0 <= i < |ds| :: ds[i].from == BatchStart(ds[..i]))
    && (forall i | 0 < i < |ds| :: ds[i].time >= ds[i - 1].time + ds[i].interval)
  }

  ghost predicate RateInv(s: Sub) {
    && DispatchesOk(s.h.dispatches)
    && (s.timer.Some? ==> s.timer.value.deadline >= s.lastDelivery + s.h.armedInterval)
    && (s.h.dispatches != [] ==> s.lastDelivery == s.h.dispatches[|s.h.dispatches| - 1].time)
  }

  /** The tasks come in order: subscribe first, unsubscribe last and only after a stop. */
  ghost predicate QueueInv(s: Sub) {
    && (forall i | 0 <= i < |s.queue| :: s.queue[i].Subscribe? ==> i == 0 && s.worker.Idle? && !s.registered && s.key.None?)
    && (forall i | 0 <= i < |s.queue| :: s.queue[i].Unsubscribe? ==> i == |s.queue| - 1 && s.stopped)
    && (s.worker.Subscribing? ==> !s.registered && s.key.None?)
    && (s.worker.Registered? ==> s.key.None? && s.registered)
    && (s.key.None? ==> s.h.accepted == 0)
    && (s.joining ==> s.stopped)
    && (s.stopped && !(s.queue != [] && s.queue[|s.queue| - 1].Unsubscribe?) ==>
          s.queue == [] && s.worker.Idle? && s.connections == 0 && !s.registered)
    && (s.stopped && !s.joining ==> s.queue == [])
  }

  function Carried(t: Task): seq<Payload> {
    if t.Resolve? then [t.payload] else []
  }

  function InQueue(q: seq<Task>): seq<Payload> {
    if q == [] then [] else Carried(q[0]) + InQueue(q[1..])
  }

  function InWorker(w: Worker): seq<Payload> {
    if w.Copied? || w.Resolving? || w.Resolved? || w.Passed? then [w.payload] else []
  }

  /** What the worker sends whatever happens. */
  function Committed(w: Worker): seq<Payload> {
    if w.Passed? then [w.payload] else []
  }

  /** Each dispatch sends the newest result of its batch. */
  function Newest(ds: seq<Dispatch>): seq<Payload> {
    seq(|ds|, i requires 0 <= i < |ds| => if ds[i].to > 0 then Result(ds[i].to - 1) else Nothing)
  }

  /** Only dispatched results are sent, or just the errors of a refused subscription. */
  ghost predicate SentInv(s: Sub) {
    && (s.h.sent == Newest(s.h.dispatches)
        || (s.h.sent == [SchemaErrors] && s.h.dispatches == [] && s.key.None? && !s.registered && !s.worker.Subscribing?
            && forall i | 0 <= i < |s.queue| :: !s.queue[i].Subscribe?))
    && (s.worker.Subscribing? ==> s.h.sent == [])
    && (s.worker.Registered? ==> s.h.sent == [])
  }

  /** Nothing handed to the worker gets lost, reordered or sent twice. */
  ghost predicate ReplyInv(s: Sub) {
    && (!s.stopped ==> s.h.replies + InWorker(s.worker) + InQueue(s.queue) == s.h.sent)
    && (s.stopped ==> s.h.replies + Committed(s.worker) <= s.h.sent)
  }

  ghost predicate Permitted(rq: Request, required: seq<Permission>) {
    HasAll(rq.permissions, required)
  }

  ghost predicate AllPermitted(rq: Request, checks: seq<seq<Permission>>) {
    forall i | 0 <= i < |checks| :: Permitted(rq, checks[i])
  }

  ghost predicate PermissionInv(rq: Request, s: Sub) {
    && !(s.flags.didCheck && s.flags.failed)
    && (rq.disablePermissions ==> s.flags.didCheck)
    && (!rq.disablePermissions && s.flags.didCheck ==>
          && s.h.latched.Some? && s.h.latched.value <= |s.h.checks|
          && AllPermitted(rq, s.h.checks[..s.h.latched.value]) && s.h.replies != [])
    && (!s.flags.didCheck ==> (s.flags.failed <==> !AllPermitted(rq, s.h.checks)))
    && (s.worker.Replied? ==> s.h.replies != [])
  }

  ghost predicate Inv(rq: Request, s: Sub) {
    DeliveryInv(s) && RateInv(s) && QueueInv(s) && SentInv(s) && ReplyInv(s) && PermissionInv(rq, s)
  }

  // ---------------------------------------------------------------- every step keeps it

  predicate OfWorker(e: Event) {
    || e.TakeTask? || e.Register? || e.SubscribeDone? || e.SubscribeRefused? || e.Validate? || e.SetInterval? || e.Observe?
    || e.TestStopped? || e.ResolutionDone? || e.Reply? || e.CheckFlags?
  }

  lemma DeliveryStepMain(rq: Request, s: Sub, e: Event)
    requires Enabled(s, e) && !OfWorker(e) && DeliveryInv(s)
    ensures DeliveryInv(Next(rq, s, e))
  {
  }

  lemma DeliveryStepWorker(rq: Request, s: Sub, e: Event)
    requires Enabled(s, e) && OfWorker(e) && DeliveryInv(s) && QueueInv(s)
    ensures DeliveryInv(Next(rq, s, e))
  {
  }

  lemma LastBatch(ds: seq<Dispatch>)
    requires DispatchesOk(ds)
    ensures ds != [] ==> BatchStart(ds) > 0
  {
    assert ds != [] ==> ds[|ds| - 1].from < ds[|ds| - 1].to;
  }

  lemma DispatchesMore(ds: seq<Dispatch>, d: Dispatch)
    requires DispatchesOk(ds) && d.from == BatchStart(ds) && d.from < d.to
    requires ds != [] ==> d.time >= ds[|ds| - 1].time + d.interval
    ensures DispatchesOk(ds + [d])
  {
    var more := ds + [d];
    assert more[..|ds|] == ds;
    forall i | 0 <= i < |ds|
      ensures more[..i] == ds[..i]
    {
    }
  }

  lemma RateStepMain(rq: Request, s: Sub, e: Event)
    requires Enabled(s, e) && !OfWorker(e) && DeliveryInv(s) && RateInv(s)
    ensures RateInv(Next(rq, s, e))
  {
    hide DispatchesOk;
    if e.TimerHandler? && !s.stopped {
      DispatchesMore(s.h.dispatches, Dispatch(s.now, s.h.armedInterval, BatchStart(s.h.dispatches), s.h.accepted));
    }
  }

  lemma RateStepWorker(rq: Request, s: Sub, e: Event)
    requires Enabled(s, e) && OfWorker(e) && RateInv(s)
    ensures RateInv(Next(rq, s, e))
  {
    hide DispatchesOk;
  }

  lemma QueueStepMain(rq: Request, s: Sub, e: Event)
    requires Enabled(s, e) && !OfWorker(e) && QueueInv(s)
    ensures QueueInv(Next(rq, s, e))
  {
  }

  lemma QueueStepTake(rq: Request, s: Sub)
    requires Enabled(s, TakeTask) && QueueInv(s)
    ensures QueueInv(Next(rq, s, TakeTask))
  {
  }

  lemma QueueStepWorker(rq: Request, s: Sub, e: Event)
    requires Enabled(s, e) && OfWorker(e) && !e.TakeTask? && QueueInv(s)
    ensures QueueInv(Next(rq, s, e))
  {
  }

  lemma NewestMore(ds: seq<Dispatch>, d: Dispatch)
    requires d.to > 0
    ensures Newest(ds + [d]) == Newest(ds) + [Result(d.to - 1)]
  {
    var more := ds + [d];
    assert forall i | 0 <= i < |ds| :: more[i] == ds[i];
  }

  lemma SentStepMain(rq: Request, s: Sub, e: Event)
    requires Enabled(s, e) && !OfWorker(e) && DeliveryInv(s) && QueueInv(s) && SentInv(s)
    ensures SentInv(Next(rq, s, e))
  {
    hide Newest;
    if e.TimerHandler? && !s.stopped {
      NewestMore(s.h.dispatches, Dispatch(s.now, s.h.armedInterval, BatchStart(s.h.dispatches), s.h.accepted));
    }
  }

  lemma SentStepWorker(rq: Request, s: Sub, e: Event)
    requires Enabled(s, e) && OfWorker(e) && DeliveryInv(s) && RateInv(s) && QueueInv(s) && SentInv(s)
    ensures SentInv(Next(rq, s, e))
  {
    hide DispatchesOk;
    LastBatch(s.h.dispatches);
  }

  lemma {:induction false} InQueueMore(q: seq<Task>, t: Task)
    ensures InQueue(q + [t]) == InQueue(q) + Carried(t)
  {
    hide Carried;
    var more := q + [t];
    if q == [] {
    } else {
      assert more[1..] == q[1..] + [t];
      assert more[0] == q[0];
      InQueueMore(q[1..], t);
      assert InQueue(more) == Carried(q[0]) + InQueue(q[1..] + [t]);
    }
  }

  lemma ReplyStepMain(rq: Request, s: Sub, e: Event)
    requires Enabled(s, e) && !OfWorker(e) && ReplyInv(s)
    ensures ReplyInv(Next(rq, s, e))
  {
    hide InQueue;
    InQueueMore(s.queue, Resolve(PendingPayload(s.pending)));
    if (e.Stop? || e.DeferredStop?) && !s.stopped {
      assert s.h.replies + Committed(s.worker) <= s.h.sent;
    }
  }

  lemma TakeMoves(q: seq<Task>)
    requires q != []
    ensures InQueue(q) == Carried(q[0]) + InQueue(q[1..])
  {
  }

  lemma ReplyStepTake(rq: Request, s: Sub)
    requires Enabled(s, TakeTask) && ReplyInv(s)
    ensures ReplyInv(Next(rq, s, TakeTask))
  {
    hide InQueue;
    TakeMoves(s.queue);
  }

  lemma ReplyStepWorker(rq: Request, s: Sub, e: Event)
    requires Enabled(s, e) && OfWorker(e) && !e.TakeTask? && SentInv(s) && ReplyInv(s)
    ensures ReplyInv(Next(rq, s, e))
  {
    hide InQueue;
    var t := Next(rq, s, e);
    if e.Reply? {
      assert t.h.replies + Committed(t.worker) == s.h.replies + Committed(s.worker);
    }
  }

  lemma PermittedMore(rq: Request, checks: seq<seq<Permission>>, required: seq<Permission>)
    ensures AllPermitted(rq, checks + [required]) <==> AllPermitted(rq, checks) && Permitted(rq, required)
  {
    var more := checks + [required];
    assert forall i | 0 <= i < |checks| :: more[i] == checks[i];
    assert more[|checks|] == required;
  }

  lemma PermissionStepValidate(rq: Request, s: Sub, required: seq<Permission>)
    requires PermissionInv(rq, s)
    ensures PermissionInv(rq, Checks(rq, s, required))
  {
    hide AllPermitted;
    PermittedMore(rq, s.h.checks, required);
    var more := s.h.checks + [required];
    assert s.h.latched.Some? && s.h.latched.value <= |s.h.checks| ==> more[..s.h.latched.value] == s.h.checks[..s.h.latched.value];
  }

  lemma PermissionStep(rq: Request, s: Sub, e: Event)
    requires Enabled(s, e) && PermissionInv(rq, s)
    ensures PermissionInv(rq, Next(rq, s, e))
  {
    hide AllPermitted, Checks;
    if e.Validate? {
      PermissionStepValidate(rq, s, e.required);
    } else {
      assert s.h.checks[..|s.h.checks|] == s.h.checks;
    }
  }

  lemma StepInv(rq: Request, s: Sub, e: Event)
    requires Enabled(s, e) && Inv(rq, s)
    ensures Inv(rq, Next(rq, s, e))
  {
    hide Enabled, Next, OfWorker, DeliveryInv, RateInv, QueueInv, SentInv, ReplyInv, PermissionInv;
    PermissionStep(rq, s, e);
    if !OfWorker(e) {
      DeliveryStepMain(rq, s, e);
      RateStepMain(rq, s, e);
      QueueStepMain(rq, s, e);
      SentStepMain(rq, s, e);
      ReplyStepMain(rq, s, e);
    } else {
      DeliveryStepWorker(rq, s, e);
      RateStepWorker(rq, s, e);
      SentStepWorker(rq, s, e);
      if e.TakeTask? {
        QueueStepTake(rq, s);
        ReplyStepTake(rq, s);
      } else {
        QueueStepWorker(rq, s, e);
        ReplyStepWorker(rq, s, e);
      }
    }
  }

  /** How many stops are still scheduled matters to nothing else. */
  lemma StopNotCounted(rq: Request, s: Sub)
    requires Inv(rq, s) && s.stopsScheduled > 0
    ensures Inv(rq, s.(stopsScheduled := s.stopsScheduled - 1))
  {
    hide DispatchesOk, Newest, InQueue, AllPermitted, BatchStart;
  }

  lemma StartInv(rq: Request, now: int)
    ensures Inv(rq, Started(rq, now))
  {
    assert InQueue([Subscribe]) == Carried(Subscribe) + InQueue([Subscribe][1..]);
  }

  lemma {:induction false} RunInv(rq: Request, ss: seq<Sub>, es: seq<Event>, i: nat)
    requires IsRun(rq, ss, es) && i < |ss|
    ensures Inv(rq, ss[i])
  {
    hide Enabled, Next, Inv, Started;
    if i == 0 {
      var now :| ss[0] == Started(rq, now);
      StartInv(rq, now);
    } else {
      RunInv(rq, ss, es, i - 1);
      StepInv(rq, ss[i - 1], es[i - 1]);
    }
  }

  // ---------------------------------------------------------------- stop with join

  /** `stop()` has returned: everything the subscription held is gone. */
  ghost predicate Released(s: Sub) {
    && s.stopped && !s.joining && s.timer.None? && s.pending.None? && s.connections == 0 && !s.registered
    && s.queue == [] && s.worker.Idle?
  }

  lemma JoinReleases(rq: Request, s: Sub)
    requires Inv(rq, s)
    ensures Released(s) <==> s.stopped && !s.joining
  {
  }

  lemma ReleasedStep(rq: Request, s: Sub, e: Event)
    requires Released(s) && Enabled(s, e)
    ensures Released(Next(rq, s, e)) && Next(rq, s, e).h == s.h
    ensures e.Stop? ==> Next(rq, s, e) == s
  {
  }

  /** After `stop()` returned nothing is sent any more and nothing is left, whatever happens next. */
  lemma {:induction false} StopIsFinal(rq: Request, ss: seq<Sub>, es: seq<Event>, i: nat, j: nat)
    requires IsRun(rq, ss, es) && i <= j < |ss| && ss[i].stopped && !ss[i].joining
    ensures Released(ss[j]) && ss[j].h == ss[i].h
  {
    hide Enabled, Next, Inv, Started, Released;
    if i == j {
      RunInv(rq, ss, es, i);
      JoinReleases(rq, ss[i]);
    } else {
      StopIsFinal(rq, ss, es, i, j - 1);
      ReleasedStep(rq, ss[j - 1], es[j - 1]);
    }
  }

  /** The replies sent already and the one that can no longer be held back. */
  function Bound(s: Sub): nat {
    |s.h.replies| + |Committed(s.worker)|
  }

  lemma StoppedBound(rq: Request, s: Sub, e: Event)
    requires Enabled(s, e)
    ensures s.h.replies <= Next(rq, s, e).h.replies
    ensures s.stopped ==> Next(rq, s, e).stopped && Bound(Next(rq, s, e)) <= Bound(s)
  {
  }

  /** Between setting `m_stopped` and any later moment at most one reply goes out. */
  lemma {:induction false} OneReplyAfterStop(rq: Request, ss: seq<Sub>, es: seq<Event>, k: nat, j: nat)
    requires Steps(rq, ss, es) && k < j < |ss| && !ss[k].stopped && ss[k + 1].stopped
    ensures ss[k].h.replies <= ss[j].h.replies && |ss[j].h.replies| <= |ss[k].h.replies| + 1
    ensures ss[j].stopped && Bound(ss[j]) <= |ss[k].h.replies| + 1
  {
    hide Next, Enabled;
    if j == k + 1 {
      StopStepBound(rq, ss[k], es[k]);
    } else {
      OneReplyAfterStop(rq, ss, es, k, j - 1);
      StoppedBound(rq, ss[j - 1], es[j - 1]);
    }
  }

  lemma StopStepBound(rq: Request, s: Sub, e: Event)
    requires Enabled(s, e) && !s.stopped && Next(rq, s, e).stopped
    ensures s.h.replies == Next(rq, s, e).h.replies && Bound(Next(rq, s, e)) <= |s.h.replies| + 1
  {
  }

  function Stage(w: Worker): nat {
    match w
    case Idle => 0
    case Replied => 1
    case Passed(_) => 2
    case Resolved(_) => 3
    case Resolving(_) => 4
    case Copied(_) => 5
    case Registered(_) => 1
    case Subscribing => 6
  }

  function WorkLeft(s: Sub): nat {
    7 * |s.queue| + Stage(s.worker)
  }

  /** What the worker does inside a resolver before it comes back. */
  predicate InResolver(e: Event) {
    e.Validate? || e.SetInterval? || e.Observe?
  }

  /** The join cannot hang: while the main thread waits, it can return or the worker has a next step. */
  lemma JoinCanGoOn(rq: Request, s: Sub)
    requires Inv(rq, s) && s.joining
    ensures Enabled(s, JoinReturns) || exists e :: OfWorker(e) && !InResolver(e) && Enabled(s, e)
    ensures WorkLeft(s) == 0 ==> Enabled(s, JoinReturns)
  {
    assert s.queue != [] && s.worker.Idle? ==> Enabled(s, TakeTask);
    assert s.worker.Subscribing? ==> Enabled(s, Register(0));
    assert s.worker.Registered? ==> Enabled(s, SubscribeDone);
    assert s.worker.Copied? || s.worker.Resolved? ==> Enabled(s, TestStopped);
    assert s.worker.Resolving? ==> Enabled(s, ResolutionDone);
    assert s.worker.Passed? ==> Enabled(s, Reply);
    assert s.worker.Replied? ==> Enabled(s, CheckFlags);
  }

  /** And each step of the worker outside a resolver brings the return closer; nothing moves it away. */
  lemma JoinNears(rq: Request, s: Sub, e: Event)
    requires QueueInv(s) && s.joining && Enabled(s, e)
    ensures WorkLeft(Next(rq, s, e)) <= WorkLeft(s)
    ensures OfWorker(e) && !InResolver(e) ==> WorkLeft(Next(rq, s, e)) < WorkLeft(s)
  {
    hide QueueInv, Checked;
    JoiningStopped(s);
  }

  lemma JoiningStopped(s: Sub)
    requires QueueInv(s)
    ensures s.joining ==> s.stopped
  {
  }

  lemma InvQueue(rq: Request, s: Sub)
    requires Inv(rq, s)
    ensures QueueInv(s)
  {
  }

  /** So a waiting `stop()` returns once the worker gets its turns, and with everything released. */
  lemma {:induction false} JoinCanEnd(rq: Request, s: Sub) returns (ss: seq<Sub>, es: seq<Event>)
    requires Inv(rq, s) && s.joining
    ensures Steps(rq, ss, es) && ss[0] == s && Released(ss[|es|])
    ensures forall i | 0 <= i < |es| - 1 :: OfWorker(es[i]) && !InResolver(es[i])
    ensures es != [] && es[|es| - 1] == JoinReturns && |es| <= WorkLeft(s) + 1
    decreases WorkLeft(s)
  {
    hide Inv, Enabled, Next, WorkLeft, Released, QueueInv, InResolver;
    JoinCanGoOn(rq, s);
    InvQueue(rq, s);
    if Enabled(s, JoinReturns) {
      ss, es := [s, Next(rq, s, JoinReturns)], [JoinReturns];
      JoinReturnsReleased(rq, s);
    } else {
      var e :| OfWorker(e) && !InResolver(e) && Enabled(s, e);
      StepInv(rq, s, e);
      JoinNears(rq, s, e);
      WorkerKeepsJoining(rq, s, e);
      var ss1, es1 := JoinCanEnd(rq, Next(rq, s, e));
      ss, es := [s] + ss1, [e] + es1;
      assert forall i | 0 < i < |es| :: es[i] == es1[i - 1] && ss[i] == ss1[i - 1] && ss[i + 1] == ss1[i];
    }
  }

  lemma WorkerKeepsJoining(rq: Request, s: Sub, e: Event)
    requires Enabled(s, e) && OfWorker(e)
    ensures Next(rq, s, e).joining == s.joining
  {
  }

  lemma JoinReturnsReleased(rq: Request, s: Sub)
    requires Inv(rq, s) && Enabled(s, JoinReturns)
    ensures Released(Next(rq, s, JoinReturns))
  {
    hide DeliveryInv, RateInv, SentInv, ReplyInv, PermissionInv, Released;
    StepInv(rq, s, JoinReturns);
    JoinReleases(rq, Next(rq, s, JoinReturns));
  }

  // ---------------------------------------------------------------- rate

  lemma Gap(ds: seq<Dispatch>, k: nat)
    requires DispatchesOk(ds) && 0 < k < |ds|
    ensures ds[k].time >= ds[k - 1].time + ds[k].interval
  {
  }

  lemma OneMore(n: nat, interval: nat)
    ensures (n + 1) * interval == n * interval + interval
  {
  }

  lemma {:induction false} Spread(ds: seq<Dispatch>, interval: nat, i: nat, j: nat)
    requires DispatchesOk(ds) && i <= j < |ds|
    requires forall k | i < k <= j :: ds[k].interval >= interval
    ensures ds[j].time - ds[i].time >= (j - i) * interval
  {
    hide DispatchesOk;
    if i < j {
      Spread(ds, interval, i, j - 1);
      Gap(ds, j);
      OneMore(j - 1 - i, interval);
    }
  }

  /** At most floor(W / I) + 1 dispatches in any window of length W when their intervals are at least I. */
  lemma RateBound(ds: seq<Dispatch>, interval: nat, i: nat, j: nat, window: nat)
    requires DispatchesOk(ds) && i <= j < |ds| && interval > 0
    requires forall k | i < k <= j :: ds[k].interval >= interval
    requires ds[j].time - ds[i].time <= window
    ensures j - i + 1 <= window / interval + 1
  {
    Spread(ds, interval, i, j);
    FloorBound(j - i, interval, window);
  }

  lemma FloorBound(n: nat, interval: nat, window: nat)
    requires interval > 0 && n * interval <= window
    ensures n <= window / interval
  {
    var q := window / interval;
    assert window < (q + 1) * interval;
    assert n >= q + 1 ==> n * interval >= (q + 1) * interval;
  }

  /** The interval is at least `interval`, and so was the one of every dispatch from number `base` on, the armed one included. */
  ghost predicate IntervalFrom(s: Sub, interval: int, base: nat) {
    && s.interval >= interval && (s.timer.Some? && |s.h.dispatches| >= base ==> s.h.armedInterval >= interval)
    && forall k | base <= k < |s.h.dispatches| :: s.h.dispatches[k].interval >= interval
  }

  lemma IntervalStep(rq: Request, s: Sub, e: Event, interval: int, base: nat)
    requires Enabled(s, e) && DeliveryInv(s) && IntervalFrom(s, interval, base)
    requires e.SetInterval? ==> e.newInterval >= interval
    ensures IntervalFrom(Next(rq, s, e), interval, base)
  {
    hide Checked, BatchStart, PendingPayload;
  }

  /** The first dispatch that is surely bound by an interval set before state `s`: an armed timer may still have an older one. */
  function FirstBound(s: Sub): nat {
    |s.h.dispatches| + if s.timer.Some? then 1 else 0
  }

  lemma {:induction false} IntervalInRun(rq: Request, ss: seq<Sub>, es: seq<Event>, interval: int, m: nat, n: nat)
    requires IsRun(rq, ss, es) && m <= n < |ss| && ss[m].interval >= interval
    requires forall k | m <= k < n && es[k].SetInterval? :: es[k].newInterval >= interval
    ensures IntervalFrom(ss[n], interval, FirstBound(ss[m]))
  {
    if m < n {
      hide Enabled, Next, Inv, Started, IntervalFrom;
      IntervalInRun(rq, ss, es, interval, m, n - 1);
      RunInv(rq, ss, es, n - 1);
      InvDelivery(rq, ss[n - 1]);
      IntervalStep(rq, ss[n - 1], es[n - 1], interval, FirstBound(ss[m]));
    }
  }

  lemma InvDelivery(rq: Request, s: Sub)
    requires Inv(rq, s)
    ensures DeliveryInv(s) && RateInv(s) && DispatchesOk(s.h.dispatches)
  {
  }

  /**
    From any moment of a run at which the interval is at least I, and as long as it is not set lower: no
    window of length W sees more than floor(W / I) + 1 dispatches.  The window may begin with the last
    dispatch before that moment, or with the next one if a timer was armed with an older interval.
   */
  lemma RateBoundInRun(rq: Request, ss: seq<Sub>, es: seq<Event>, m: nat, n: nat, interval: nat, i: nat, j: nat, window: nat)
    requires IsRun(rq, ss, es) && m <= n < |ss| && ss[m].interval >= interval > 0
    requires forall k | m <= k < n && es[k].SetInterval? :: es[k].newInterval >= interval
    requires FirstBound(ss[m]) <= i + 1 && i <= j < |ss[n].h.dispatches|
    requires ss[n].h.dispatches[j].time - ss[n].h.dispatches[i].time <= window
    ensures j - i + 1 <= window / interval + 1
  {
    hide Enabled, Next, Inv, Started;
    RunInv(rq, ss, es, n);
    InvDelivery(rq, ss[n]);
    IntervalInRun(rq, ss, es, interval, m, n);
    RateBound(ss[n].h.dispatches, interval, i, j, window);
  }

  // ---------------------------------------------------------------- latest wins

  /** Accepting a result, or anything else, never moves the deadline of an armed timer. */
  lemma DeadlineFixed(rq: Request, s: Sub, e: Event)
    requires Enabled(s, e)
    ensures s.timer.Some? && Next(rq, s, e).timer.Some? ==> Next(rq, s, e).timer.value.deadline == s.timer.value.deadline
  {
  }

  /** Nothing arms a timer but an accepted result, and for the moment the interval is over, or at once when it is already. */
  lemma ArmedExactly(rq: Request, s: Sub, e: Event)
    requires Enabled(s, e) && s.timer.None? && Next(rq, s, e).timer.Some?
    ensures e.OnFuture? && s.key.Some? && s.key.value in e.triggers
    ensures var timer := Next(rq, s, e).timer.value;
      && !timer.expired
      && timer.deadline == e.delay + if s.lastDelivery + s.interval > s.now then s.lastDelivery + s.interval else s.now
  {
  }

  /** As long as a timer is armed, whatever happens in the meantime. */
  lemma {:induction false} DeadlineFixedInRun(rq: Request, ss: seq<Sub>, es: seq<Event>, i: nat, j: nat)
    requires Steps(rq, ss, es) && i <= j < |ss| && forall m | i <= m <= j :: ss[m].timer.Some?
    ensures ss[j].timer.value.deadline == ss[i].timer.value.deadline
  {
    hide Enabled, Next;
    if i < j {
      DeadlineFixedInRun(rq, ss, es, i, j - 1);
      DeadlineFixed(rq, ss[j - 1], es[j - 1]);
    }
  }

  /** Once its deadline passed, the timer of a running subscription can expire or its handler can run. */
  lemma Due(rq: Request, s: Sub)
    requires DeliveryInv(s) && QueueInv(s) && !s.stopped && s.timer.Some? && s.timer.value.deadline <= s.now
    ensures Enabled(s, TimerExpires) || Enabled(s, TimerHandler)
    ensures Enabled(s, TimerExpires) ==> Enabled(Next(rq, s, TimerExpires), TimerHandler)
  {
  }

  /** The handler hands the newest accepted result to the worker, behind everything handed over before. */
  lemma DispatchesNewest(rq: Request, s: Sub)
    requires Inv(rq, s) && !s.stopped && Enabled(s, TimerHandler)
    ensures var t := Next(rq, s, TimerHandler);
      && s.h.accepted > 0 && t.h.sent == s.h.sent + [Result(s.h.accepted - 1)]
      && t.h.replies + InWorker(t.worker) + InQueue(t.queue) == t.h.sent
      && BatchStart(t.h.dispatches) == t.h.accepted && t.timer.None? && t.pending.None?
  {
    hide RateInv, QueueInv, SentInv, PermissionInv, InQueue, InWorker;
    ReplyStepMain(rq, s, TimerHandler);
  }

  predicate OfDelivery(e: Event) {
    e.Tick? || e.TimerExpires? || e.TimerHandler?
  }

  /**
    No starvation: however many results were accepted since the timer was armed, the deadline is still the
    old one, and waiting for it, the expiry and the handler lead to the dispatch of the newest result.
   */
  lemma NoStarvation(rq: Request, ss: seq<Sub>, es: seq<Event>, i: nat, n: nat) returns (ts: seq<Sub>, fs: seq<Event>)
    requires IsRun(rq, ss, es) && i <= n < |ss| && !ss[n].stopped && forall m | i <= m <= n :: ss[m].timer.Some?
    ensures |fs| <= 3 && Delivers(rq, ss[n], ts, fs, Max(ss[n].now, ss[i].timer.value.deadline))
  {
    hide Inv, Enabled, Next, Started, Delivers;
    RunInv(rq, ss, es, n);
    DeadlineFixedInRun(rq, ss, es, i, n);
    ts, fs := DispatchComes(rq, ss[n]);
  }

  /**
    So the dispatch comes in time: for a timer armed by the event at `a` and armed ever since, it takes place
    at the end of the interval after the delivery before, or when the result was accepted if that was later,
    or now if that is past.
   */
  lemma DispatchInTime(rq: Request, ss: seq<Sub>, es: seq<Event>, a: nat, n: nat) returns (ts: seq<Sub>, fs: seq<Event>)
    requires IsRun(rq, ss, es) && a < n < |ss| && !ss[n].stopped
    requires ss[a].timer.None? && forall m | a < m <= n :: ss[m].timer.Some?
    ensures es[a].OnFuture? && |fs| <= 3
    ensures var due := es[a].delay
                       + if ss[a].lastDelivery + ss[a].interval > ss[a].now then ss[a].lastDelivery + ss[a].interval else ss[a].now;
      Delivers(rq, ss[n], ts, fs, if due > ss[n].now then due else ss[n].now)
  {
    hide Inv, Enabled, Next, Started, Delivers;
    assert ss[a + 1] == Next(rq, ss[a], es[a]);
    ArmedExactly(rq, ss[a], es[a]);
    ts, fs := NoStarvation(rq, ss, es, a + 1, n);
  }

  /** A run of delivery events from `s` that ends right after the dispatch of the newest result. */
  ghost predicate Delivers(rq: Request, s: Sub, ts: seq<Sub>, fs: seq<Event>, now: int) {
    && Steps(rq, ts, fs) && ts[0] == s && (forall k | 0 <= k < |fs| :: OfDelivery(fs[k]))
    && var t := ts[|fs|];
    && Inv(rq, t) && !t.stopped && t.timer.None? && t.now == now && t.h.accepted == s.h.accepted > 0
    && t.h.sent == s.h.sent + [Result(s.h.accepted - 1)]
  }

  lemma DeliversBefore(rq: Request, s: Sub, e: Event, ts: seq<Sub>, fs: seq<Event>, now: int)
    requires Enabled(s, e) && OfDelivery(e) && Delivers(rq, Next(rq, s, e), ts, fs, now) && Next(rq, s, e).h == s.h
    ensures Delivers(rq, s, [s] + ts, [e] + fs, now)
  {
    hide Enabled, Next, Inv;
    var ss, es := [s] + ts, [e] + fs;
    assert forall i | 0 < i < |es| :: es[i] == fs[i - 1] && ss[i] == ts[i - 1] && ss[i + 1] == ts[i];
  }

  lemma DispatchComes(rq: Request, s: Sub) returns (ts: seq<Sub>, fs: seq<Event>)
    requires Inv(rq, s) && !s.stopped && s.timer.Some?
    ensures |fs| <= 3 && Delivers(rq, s, ts, fs, Max(s.now, s.timer.value.deadline))
  {
    hide Inv, Enabled, Next, Delivers;
    if s.now < s.timer.value.deadline {
      WaitStep(rq, s);
      var d := Tick(s.timer.value.deadline - s.now);
      ts, fs := DispatchDue(rq, Next(rq, s, d));
      DeliversBefore(rq, s, d, ts, fs, s.timer.value.deadline);
      ts, fs := [s] + ts, [d] + fs;
    } else {
      ts, fs := DispatchDue(rq, s);
    }
  }

  lemma DispatchDue(rq: Request, s: Sub) returns (ts: seq<Sub>, fs: seq<Event>)
    requires Inv(rq, s) && !s.stopped && s.timer.Some? && s.timer.value.deadline <= s.now
    ensures |fs| <= 2 && Delivers(rq, s, ts, fs, s.now)
  {
    hide Inv, Enabled, Next, Delivers;
    if s.timer.value.expired {
      ts, fs := DispatchExpired(rq, s);
    } else {
      ExpireStep(rq, s);
      ts, fs := DispatchExpired(rq, Next(rq, s, TimerExpires));
      DeliversBefore(rq, s, TimerExpires, ts, fs, s.now);
      ts, fs := [s] + ts, [TimerExpires] + fs;
    }
  }

  lemma DispatchExpired(rq: Request, s: Sub) returns (ts: seq<Sub>, fs: seq<Event>)
    requires Inv(rq, s) && !s.stopped && s.timer.Some? && s.timer.value.expired
    ensures |fs| == 1 && Delivers(rq, s, ts, fs, s.now)
  {
    hide Inv, Enabled, Next;
    HandlerStep(rq, s);
    ts, fs := [s, Next(rq, s, TimerHandler)], [TimerHandler];
  }

  lemma WaitStep(rq: Request, s: Sub)
    requires Inv(rq, s) && s.timer.Some? && s.now < s.timer.value.deadline
    ensures var d := Tick(s.timer.value.deadline - s.now);
      && Enabled(s, d) && Inv(rq, Next(rq, s, d))
      && Next(rq, s, d) == s.(now := s.timer.value.deadline)
  {
    hide Inv;
    StepInv(rq, s, Tick(s.timer.value.deadline - s.now));
  }

  lemma ExpireStep(rq: Request, s: Sub)
    requires Inv(rq, s) && s.timer.Some? && !s.timer.value.expired && s.timer.value.deadline <= s.now
    ensures Enabled(s, TimerExpires) && Inv(rq, Next(rq, s, TimerExpires))
    ensures Next(rq, s, TimerExpires) == s.(timer := Some(s.timer.value.(expired := true)), fired := s.fired + 1)
  {
    hide Inv;
    StepInv(rq, s, TimerExpires);
  }

  lemma HandlerStep(rq: Request, s: Sub)
    requires Inv(rq, s) && !s.stopped && s.timer.Some? && s.timer.value.expired
    ensures Enabled(s, TimerHandler) && Inv(rq, Next(rq, s, TimerHandler))
    ensures var t := Next(rq, s, TimerHandler);
      && s.h.accepted > 0 && t.h.sent == s.h.sent + [Result(s.h.accepted - 1)] && t.timer.None?
      && t.h.accepted == s.h.accepted && t.now == s.now && !t.stopped
  {
    hide RateInv, SentInv, ReplyInv, PermissionInv;
    StepInv(rq, s, TimerHandler);
    DispatchesNewest(rq, s);
  }

  /** Dispatches happen only at or after the deadline, and only through the timer. */
  lemma DispatchNotEarly(rq: Request, s: Sub, e: Event)
    requires DeliveryInv(s) && Enabled(s, e) && Next(rq, s, e).h.dispatches != s.h.dispatches
    ensures e.TimerHandler? && s.timer.Some? && s.timer.value.deadline <= s.now
  {
  }

  lemma {:induction false} BatchOf(ds: seq<Dispatch>, n: nat) returns (i: nat)
    requires DispatchesOk(ds) && n < BatchStart(ds)
    ensures i < |ds| && ds[i].from <= n < ds[i].to
  {
    i := |ds| - 1;
    if n < ds[i].from {
      DispatchesPrefix(ds, i);
      i := BatchOf(ds[..i], n);
    }
  }

  lemma DispatchesPrefix(ds: seq<Dispatch>, i: nat)
    requires DispatchesOk(ds) && i <= |ds|
    ensures DispatchesOk(ds[..i])
  {
    forall k | 0 <= k < i
      ensures ds[..i][..k] == ds[..k]
    {
    }
  }

  lemma {:induction false} BatchesApart(ds: seq<Dispatch>, i: nat, j: nat)
    requires DispatchesOk(ds) && i < j < |ds|
    ensures ds[i].to <= ds[j].from
  {
    if i < j - 1 {
      BatchesApart(ds, i, j - 1);
    }
  }

  /** The batches partition the accepted results up to the last dispatch. */
  lemma BatchesPartition(ds: seq<Dispatch>, n: nat)
    requires DispatchesOk(ds)
    ensures (exists i | 0 <= i < |ds| :: ds[i].from <= n < ds[i].to) <==> n < BatchStart(ds)
    ensures forall i, j | 0 <= i < j < |ds| :: ds[i].to <= ds[j].from && ds[i].to < ds[j].to
  {
    forall i, j | 0 <= i < j < |ds|
      ensures ds[i].to <= ds[j].from
    {
      BatchesApart(ds, i, j);
    }
    if n < BatchStart(ds) {
      var i := BatchOf(ds, n);
    }
  }

  /**
    Every accepted result is in exactly one dispatched batch, whose newest result is sent, or it waits
    behind the pending one, or the stop dropped it.
   */
  lemma Fate(rq: Request, s: Sub, n: nat)
    requires Inv(rq, s) && n < s.h.accepted
    ensures (exists i | 0 <= i < |s.h.dispatches| :: s.h.dispatches[i].from <= n < s.h.dispatches[i].to)
            || s.stopped || (s.pending == Some(s.h.accepted - 1) && s.timer.Some?)
    ensures (exists i | 0 <= i < |s.h.dispatches| :: s.h.dispatches[i].from <= n < s.h.dispatches[i].to)
            ==> s.timer.Some? ==> n < s.pending.value
    ensures forall i, j | 0 <= i < j < |s.h.dispatches| :: s.h.dispatches[i].to <= s.h.dispatches[j].from
    ensures |s.h.sent| == |s.h.dispatches|
            && forall i | 0 <= i < |s.h.dispatches| :: s.h.sent[i] == Result(s.h.dispatches[i].to - 1)
  {
    hide ReplyInv, PermissionInv, DispatchesOk;
    BatchesPartition(s.h.dispatches, n);
    SentNewest(s);
  }

  lemma SentNewest(s: Sub)
    requires RateInv(s) && SentInv(s) && QueueInv(s) && s.h.accepted > 0
    ensures |s.h.sent| == |s.h.dispatches|
    ensures forall i | 0 <= i < |s.h.dispatches| :: s.h.sent[i] == Result(s.h.dispatches[i].to - 1)
  {
  }

  lemma RepliesSent(s: Sub)
    requires ReplyInv(s)
    ensures s.h.replies <= s.h.sent
    ensures !s.stopped && s.worker.Idle? && s.queue == [] ==> s.h.replies == s.h.sent
  {
    hide InQueue;
    assert InQueue([]) == [] by {
      NothingQueued();
    }
    assert s.h.replies <= s.h.replies + (InWorker(s.worker) + InQueue(s.queue));
    assert s.h.replies + (InWorker(s.worker) + InQueue(s.queue)) == s.h.replies + InWorker(s.worker) + InQueue(s.queue);
    assert s.h.replies <= s.h.replies + Committed(s.worker);
  }

  lemma NothingQueued()
    ensures InQueue([]) == []
  {
  }

  lemma SentIncreases(s: Sub)
    requires RateInv(s) && SentInv(s)
    ensures Nothing !in s.h.sent
    ensures forall i, j | 0 <= i < j < |s.h.sent| ::
      s.h.sent[i].Result? && s.h.sent[j].Result? && s.h.sent[i].n < s.h.sent[j].n
  {
    hide DispatchesOk;
    LastsPositive(s.h.dispatches);
    BatchesPartition(s.h.dispatches, 0);
  }

  lemma LastsPositive(ds: seq<Dispatch>)
    requires DispatchesOk(ds)
    ensures forall i | 0 <= i < |ds| :: ds[i].to > 0
  {
  }

  /** The client sees results in the order they were accepted, none twice, and never an empty future. */
  lemma RepliesInOrder(rq: Request, s: Sub)
    requires Inv(rq, s)
    ensures s.h.replies <= s.h.sent && Nothing !in s.h.sent
    ensures !s.stopped && s.worker.Idle? && s.queue == [] ==> s.h.replies == s.h.sent
    ensures forall i, j | 0 <= i < j < |s.h.replies| ::
      s.h.replies[i].Result? && s.h.replies[j].Result? && s.h.replies[i].n < s.h.replies[j].n
  {
    hide DeliveryInv, RateInv, QueueInv, SentInv, ReplyInv, PermissionInv;
    RepliesSent(s);
    SentIncreases(s);
    forall i, j | 0 <= i < j < |s.h.replies|
      ensures s.h.replies[i].Result? && s.h.replies[j].Result? && s.h.replies[i].n < s.h.replies[j].n
    {
      assert s.h.replies[i] == s.h.sent[i] && s.h.replies[j] == s.h.sent[j];
    }
  }

  lemma AcceptedGrows(rq: Request, s: Sub, e: Event)
    requires Enabled(s, e)
    ensures Next(rq, s, e).h.accepted >= s.h.accepted && (s.stopped ==> Next(rq, s, e).stopped)
  {
  }

  lemma {:induction false} AcceptedGrowsInRun(rq: Request, ss: seq<Sub>, es: seq<Event>, i: nat, j: nat)
    requires Steps(rq, ss, es) && i <= j < |ss|
    ensures ss[j].h.accepted >= ss[i].h.accepted && (ss[i].stopped ==> ss[j].stopped)
  {
    hide Enabled, Next;
    if i < j {
      AcceptedGrowsInRun(rq, ss, es, i, j - 1);
      AcceptedGrows(rq, ss[j - 1], es[j - 1]);
    }
  }

  /** The dispatches that take care of the `n`-th accepted result: they send it or one accepted after it. */
  ghost predicate Dispatched(s: Sub, n: nat) {
    exists k :: 0 <= k < |s.h.dispatches| && k < |s.h.sent| && s.h.dispatches[k].from <= n < s.h.dispatches[k].to
                && s.h.sent[k].Result? && s.h.sent[k].n >= n
  }

  /** Every accepted result of a running subscription is dispatched already, or it is after at most three delivery events. */
  lemma AcceptedIsDispatched(rq: Request, s: Sub, n: nat) returns (ts: seq<Sub>, fs: seq<Event>)
    requires Inv(rq, s) && !s.stopped && n < s.h.accepted
    ensures Steps(rq, ts, fs) && ts[0] == s && |fs| <= 3 && forall k | 0 <= k < |fs| :: OfDelivery(fs[k])
    ensures Dispatched(ts[|fs|], n)
  {
    hide Inv, Enabled, Next, Dispatched;
    PendingIffArmed(rq, s);
    if s.timer.Some? {
      ts, fs := DispatchComes(rq, s);
    } else {
      ts, fs := [s], [];
    }
    PendingIffArmed(rq, ts[|fs|]);
    NothingWaits(rq, ts[|fs|], n);
  }

  lemma PendingIffArmed(rq: Request, s: Sub)
    requires Inv(rq, s)
    ensures s.timer.Some? <==> s.pending.Some?
  {
  }

  lemma NothingWaits(rq: Request, s: Sub, n: nat)
    requires Inv(rq, s) && !s.stopped && s.timer.None? && n < s.h.accepted
    ensures Dispatched(s, n)
  {
    hide Inv;
    Fate(rq, s, n);
    PendingIffArmed(rq, s);
    var k :| 0 <= k < |s.h.dispatches| && s.h.dispatches[k].from <= n < s.h.dispatches[k].to;
    assert s.h.sent[k] == Result(s.h.dispatches[k].to - 1);
  }

  // ---------------------------------------------------------------- permissions

  lemma FlagStep(rq: Request, s: Sub, e: Event)
    requires Enabled(s, e) && !(s.flags.didCheck && s.flags.failed)
    ensures s.flags.failed ==> Next(rq, s, e).flags == s.flags
    ensures s.flags.didCheck ==> Next(rq, s, e).flags == s.flags
    ensures s.flags.failed && e.CheckFlags? ==> Next(rq, s, e).stopsScheduled == s.stopsScheduled + 1
    ensures Next(rq, s, e).flags.didCheck && !s.flags.didCheck ==> e.CheckFlags?
  {
  }

  /** After a failed check the other flag is never set and each later completed resolution schedules a stop. */
  lemma {:induction false} FailureIsFinal(rq: Request, ss: seq<Sub>, es: seq<Event>, i: nat, j: nat)
    requires IsRun(rq, ss, es) && i <= j < |ss| && ss[i].flags.failed
    ensures ss[j].flags.failed && !ss[j].flags.didCheck
    ensures j < |es| && es[j].CheckFlags? ==> ss[j + 1].stopsScheduled == ss[j].stopsScheduled + 1
  {
    hide Next, Enabled, Started;
    RunInv(rq, ss, es, j);
    if i < j {
      FailureIsFinal(rq, ss, es, i, j - 1);
      FlagStep(rq, ss[j - 1], es[j - 1]);
    }
    if j < |es| {
      FlagStep(rq, ss[j], es[j]);
    }
  }

  /**
    With checks compiled in, the step that sets m_didPermissionsCheck follows a reply, and every check
    made until then found all its keys in the client's set.
   */
  lemma LatchedOnlyIfPermitted(rq: Request, s: Sub, e: Event)
    requires PermissionInv(rq, s) && Enabled(s, e) && !s.flags.didCheck && Next(rq, s, e).flags.didCheck
    ensures !rq.disablePermissions && e.CheckFlags? && s.h.replies != [] && AllPermitted(rq, s.h.checks)
  {
    hide AllPermitted;
    FlagStep(rq, s, e);
  }

  /** In a run with checks compiled in: the flag goes back to one completed resolution up to which every check was permitted. */
  lemma {:induction false} LatchedInRun(rq: Request, ss: seq<Sub>, es: seq<Event>, n: nat) returns (k: nat)
    requires IsRun(rq, ss, es) && n < |ss| && !rq.disablePermissions && ss[n].flags.didCheck
    ensures k < n && es[k] == CheckFlags && ss[k].h.replies != [] && AllPermitted(rq, ss[k].h.checks)
    ensures !ss[k].flags.didCheck && forall m | k < m <= n :: ss[m].flags.didCheck && !ss[m].flags.failed
  {
    hide Next, Enabled, Started, AllPermitted, Inv, PermissionInv;
    var now :| ss[0] == Started(rq, now);
    StartedFlags(rq, now);
    RunInv(rq, ss, es, n);
    RunInv(rq, ss, es, n - 1);
    InvFlags(rq, ss[n]);
    InvFlags(rq, ss[n - 1]);
    if ss[n - 1].flags.didCheck {
      k := LatchedInRun(rq, ss, es, n - 1);
    } else {
      LatchedOnlyIfPermitted(rq, ss[n - 1], es[n - 1]);
      k := n - 1;
    }
  }

  lemma StartedFlags(rq: Request, now: int)
    ensures Started(rq, now).flags.didCheck == rq.disablePermissions
  {
  }

  lemma InvFlags(rq: Request, s: Sub)
    requires Inv(rq, s)
    ensures PermissionInv(rq, s) && !(s.flags.didCheck && s.flags.failed)
  {
  }

  /**
    In a run with checks compiled in, a check lets pass exactly what the client's set permits, as long as the
    flag is not latched, and everything afterwards.
   */
  lemma VerdictsInRun(rq: Request, ss: seq<Sub>, es: seq<Event>, n: nat)
    requires IsRun(rq, ss, es) && n < |es| && es[n].Validate?
    ensures var verdict := Checked(ss[n].flags, rq.permissions, es[n].required).0;
      && (verdict == Allowed <==> ss[n].flags.didCheck || HasAll(rq.permissions, es[n].required))
      && (verdict != Allowed ==> ss[n + 1].flags.failed)
    ensures ss[n + 1].flags.failed <==> ss[n].flags.failed || !(ss[n].flags.didCheck || HasAll(rq.permissions, es[n].required))
  {
    CheckAnswers(ss[n].flags, rq.permissions, es[n].required);
    assert ss[n + 1] == Next(rq, ss[n], es[n]);
  }

  /** A completed resolution sets the flag exactly when no check failed so far, and schedules a stop otherwise. */
  lemma LatchExactly(rq: Request, s: Sub)
    requires PermissionInv(rq, s) && !rq.disablePermissions && s.worker.Replied? && !s.flags.didCheck
    ensures Next(rq, s, CheckFlags).flags.didCheck <==> AllPermitted(rq, s.h.checks)
    ensures Next(rq, s, CheckFlags).stopsScheduled > s.stopsScheduled <==> !AllPermitted(rq, s.h.checks)
  {
  }
}
