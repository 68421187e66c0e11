/**
  One connection and all the operations it ever started: the main thread stops them, tears the
  connection down and empties its handlers while pool jobs and subscription workers keep running.
 */
module Connection {
  import opened Basics
  import opened Permissions
  import R = RegularOperation
  import S = Subscription

  type Id = string

  /** `copyFull`: the subscription worker's last copy of `onReply` is a non-empty function. */
  datatype Op = Regular(reg: R.Regular) | Subs(rq: S.Request, sub: S.Sub, copyFull: bool)

  /** What the main thread does after a join. */
  datatype After = Return | Erase(id: Id) | Loop(todo: seq<nat>, tearingDown: bool)

  /** Where the main thread is; operations are named by the order of their creation. */
  datatype Main = Free | Stopping(todo: seq<nat>, tearingDown: bool) | Joining(op: nat, after: After)

  datatype Conn = Conn(handlers: bool, closed: bool, listed: map<Id, nat>, ops: seq<Op>, main: Main)

  datatype Step =
    | Start(id: Id, op: Op)
    | StopId(id: Id)
    | StopAll(order: seq<nat>, tearingDown: bool)
    | StopNext
    | JoinReturned
    | MainEvent(i: nat, e: S.Event)
    | WorkerEvent(i: nat, e: S.Event)
    | PoolEvent(i: nat, re: R.Event)
    // a connected signal fires and its slot posts a notification
    | Signal(i: nat)

  /** After `setup`. */
  const OPEN := Conn(true, false, map[], [], Free)

  predicate Stopped(op: Op) {
    if op.Regular? then op.reg.stopped else op.sub.stopped
  }

  /** The operations the loop in `stop()` still has before it. */
  function Todo(m: Main): seq<nat> {
    if m.Stopping? then m.todo else if m.Joining? && m.after.Loop? then m.after.todo else []
  }

  ghost predicate Fresh(op: Op) {
    if op.Regular? then op.reg == R.STARTED else exists now :: op.sub == S.Started(op.rq, now)
  }

  predicate CopiesHandler(s: S.Sub, e: S.Event) {
    e.SubscribeRefused? || (e.TakeTask? && s.queue != [] && s.queue[0].Resolve?)
  }

  /** A stop of operation `i`; a subscription that was running has to be joined before `after` is done. */
  function StopOp(c: Conn, i: nat, after: After): Conn
    requires i < |c.ops|
  {
    match c.ops[i]
    case Regular(reg) => Continue(c.(ops := c.ops[i := Regular(reg.(stopped := true))]), after)
    case Subs(rq, s, full) =>
      if s.stopped then Continue(c, after)
      else c.(ops := c.ops[i := Subs(rq, S.StopNow(s), full)], main := Joining(i, after))
  }

  function Continue(c: Conn, after: After): Conn {
    match after
    case Return => c.(main := Free)
    case Erase(id) => c.(main := Free, listed := c.listed - {id})
    case Loop(todo, tearingDown) =>
      if todo != [] then c.(main := Stopping(todo, tearingDown))
      else c.(main := Free, handlers := c.handlers && !tearingDown)
  }

  ghost predicate Lists(listed: map<Id, nat>, i: nat) {
    exists id :: id in listed && listed[id] == i
  }

  predicate IsSub(c: Conn, i: nat) {
    i < |c.ops| && c.ops[i].Subs?
  }

  ghost predicate Enabled(c: Conn, s: Step) {
    match s
    case Start(id, op) => c.main.Free? && !c.closed && Fresh(op)
    case StopId(_) => c.main.Free? && !c.closed
    case StopAll(order, _) => c.main.Free? && forall i :: i in order <==> Lists(c.listed, i)
    case StopNext => c.main.Stopping? && c.main.todo != [] && c.main.todo[0] < |c.ops|
    case JoinReturned => c.main.Joining? && IsSub(c, c.main.op) && S.Enabled(c.ops[c.main.op].sub, S.JoinReturns)
    case MainEvent(i, e) =>
      c.main.Free? && IsSub(c, i) && (e.OnFuture? || e.TimerHandler? || e.DeferredStop?) && S.Enabled(c.ops[i].sub, e)
    case WorkerEvent(i, e) =>
      IsSub(c, i) && (S.OfWorker(e) || e.TimerExpires? || e.Tick?) && S.Enabled(c.ops[i].sub, e)
    case PoolEvent(i, re) =>
      i < |c.ops| && c.ops[i].Regular? && !re.Stop? && R.Enabled(c.ops[i].reg, re) && (re.Take? ==> re.full == c.handlers)
    case Signal(i) => IsSub(c, i) && c.ops[i].sub.connections > 0
  }

  function Do(c: Conn, s: Step): Conn
    requires Enabled(c, s)
  {
    match s
    case Start(id, op) =>
      if id == "" || id in c.listed then c
      else c.(ops := c.ops + [op], listed := c.listed[id := |c.ops|])
    case StopId(id) => if id in c.listed && c.listed[id] < |c.ops| then StopOp(c, c.listed[id], Erase(id)) else c
    case StopAll(order, tearingDown) =>
      Continue(c.(listed := map[], closed := c.closed || tearingDown), Loop(order, tearingDown))
    case StopNext =>
      var i := c.main.todo[0];
      var after := Loop(c.main.todo[1..], c.main.tearingDown);
      if Stopped(c.ops[i]) then Continue(c, after) else StopOp(c, i, after)
    case JoinReturned =>
      var i := c.main.op;
      Continue(c.(ops := c.ops[i := c.ops[i].(sub := S.Next(c.ops[i].rq, c.ops[i].sub, S.JoinReturns))]), c.main.after)
    case MainEvent(i, e) =>
      if e.DeferredStop? then
        StopOp(c.(ops := c.ops[i := c.ops[i].(sub := c.ops[i].sub.(stopsScheduled := c.ops[i].sub.stopsScheduled - 1))]), i, Return)
      else c.(ops := c.ops[i := c.ops[i].(sub := S.Next(c.ops[i].rq, c.ops[i].sub, e))])
    case WorkerEvent(i, e) =>
      c.(ops := c.ops[i := Subs(c.ops[i].rq, S.Next(c.ops[i].rq, c.ops[i].sub, e),
                                if CopiesHandler(c.ops[i].sub, e) then c.handlers else c.ops[i].copyFull)])
    case PoolEvent(i, re) => c.(ops := c.ops[i := Regular(R.Next(c.ops[i].reg, re))])
    case Signal(_) => c
  }

  ghost predicate IsRun(cs: seq<Conn>, ss: seq<Step>) {
    |cs| == |ss| + 1 && cs[0] == OPEN && forall k | 0 <= k < |ss| :: Enabled(cs[k], ss[k]) && cs[k + 1] == Do(cs[k], ss[k])
  }

  // ---------------------------------------------------------------- the invariant

  /** What holds of each operation by itself. */
  ghost predicate OpInv(op: Op) {
    match op
    case Regular(reg) => R.Inv(reg)
    case Subs(rq, s, full) => S.Inv(rq, s) && (S.InWorker(s.worker) != [] ==> full)
  }

  ghost predicate OpsInv(ops: seq<Op>) {
    forall i | 0 <= i < |ops| :: OpInv(ops[i])
  }

  /** A running operation is in m_operations, or in what stop() took out of it and has not come to yet; then there are handlers. */
  ghost predicate Accounted(c: Conn, rest: seq<nat>) {
    forall i | 0 <= i < |c.ops| && !Stopped(c.ops[i]) :: c.handlers && (Lists(c.listed, i) || i in rest)
  }

  /** The main thread waits for at most one worker. */
  ghost predicate Joined(c: Conn) {
    forall i | 0 <= i < |c.ops| && c.ops[i].Subs? :: c.ops[i].sub.joining <==> c.main.Joining? && c.main.op == i
  }

  ghost predicate Known(c: Conn, rest: seq<nat>) {
    && (forall id | id in c.listed :: c.listed[id] < |c.ops|)
    && (forall i | i in rest :: i < |c.ops|)
  }

  predicate Looping(m: Main) {
    m.Stopping? || (m.Joining? && m.after.Loop?)
  }

  predicate EndsClosed(c: Conn, after: After) {
    after.Loop? && after.tearingDown ==> c.closed
  }

  ghost predicate ConnInv(c: Conn) {
    && OpsInv(c.ops) && Accounted(c, Todo(c.main)) && Joined(c) && Known(c, Todo(c.main))
    && (!c.closed ==> c.handlers)
    && (Looping(c.main) ==> c.listed == map[])
    && (c.main.Joining? ==> EndsClosed(c, c.main.after))
    && (c.main.Stopping? ==> EndsClosed(c, Loop(c.main.todo, c.main.tearingDown)))
    && (c.main.Stopping? ==> c.main.todo != [])
    && (c.main.Joining? ==> c.handlers && IsSub(c, c.main.op) && c.ops[c.main.op].sub.stopped)
    && (c.main.Joining? && c.main.after.Erase? && c.main.after.id in c.listed ==> c.listed[c.main.after.id] == c.main.op)
  }

  // ---------------------------------------------------------------- one operation moves

  lemma SubStepLocal(rq: S.Request, s: S.Sub, e: S.Event)
    requires S.Enabled(s, e) && !e.Stop? && !e.DeferredStop? && !e.JoinReturns?
    ensures S.Next(rq, s, e).stopped == s.stopped && S.Next(rq, s, e).joining == s.joining
    ensures S.InWorker(S.Next(rq, s, e).worker) != [] && !CopiesHandler(s, e) ==> S.InWorker(s.worker) != []
    ensures CopiesHandler(s, e) ==> !S.Released(s)
  {
  }

  /** As long as a subscription holds anything, the handlers are there. */
  lemma LiveHasHandlers(c: Conn, i: nat)
    requires ConnInv(c) && IsSub(c, i)
    ensures !S.Released(c.ops[i].sub) ==> c.handlers
  {
    hide S.Released, S.Inv;
    assert OpInv(c.ops[i]);
    S.JoinReleases(c.ops[i].rq, c.ops[i].sub);
  }

  /** Replacing one operation by a later state of itself. */
  lemma Replaced(c: Conn, i: nat, op: Op)
    requires ConnInv(c) && i < |c.ops| && OpInv(op) && op.Subs? == c.ops[i].Subs?
    requires Stopped(c.ops[i]) ==> Stopped(op)
    requires op.Subs? ==> op.sub.joining == c.ops[i].sub.joining
    ensures ConnInv(c.(ops := c.ops[i := op]))
  {
    hide OpInv;
  }

  lemma WorkerKeeps(c: Conn, i: nat, e: S.Event)
    requires ConnInv(c) && Enabled(c, WorkerEvent(i, e))
    ensures ConnInv(Do(c, WorkerEvent(i, e)))
  {
    hide S.Next, S.Enabled, S.Inv, S.Released, ConnInv;
    var op := c.ops[i];
    OpHolds(c, i);
    LiveHasHandlers(c, i);
    SubStepLocal(op.rq, op.sub, e);
    S.StepInv(op.rq, op.sub, e);
    Replaced(c, i, Subs(op.rq, S.Next(op.rq, op.sub, e), if CopiesHandler(op.sub, e) then c.handlers else op.copyFull));
  }

  lemma OpHolds(c: Conn, i: nat)
    requires ConnInv(c) && i < |c.ops|
    ensures OpInv(c.ops[i]) && (!Stopped(c.ops[i]) ==> c.handlers)
  {
  }

  lemma PoolKeeps(c: Conn, i: nat, re: R.Event)
    requires ConnInv(c) && Enabled(c, PoolEvent(i, re))
    ensures ConnInv(Do(c, PoolEvent(i, re)))
  {
    hide ConnInv;
    OpHolds(c, i);
    R.StepInv(c.ops[i].reg, re);
    Replaced(c, i, Regular(R.Next(c.ops[i].reg, re)));
  }

  // ---------------------------------------------------------------- the main thread moves

  /** Just before `Continue`: nothing is being joined and `after` is all that is left to do. */
  ghost predicate Resting(c: Conn, after: After) {
    && OpsInv(c.ops) && Accounted(c, Rest(after)) && Known(c, Rest(after))
    && (forall i | 0 <= i < |c.ops| && c.ops[i].Subs? :: !c.ops[i].sub.joining)
    && (!c.closed ==> c.handlers) && EndsClosed(c, after)
    && (after.Loop? ==> c.listed == map[])
    && (after.Erase? && after.id in c.listed ==> c.listed[after.id] < |c.ops| && Stopped(c.ops[c.listed[after.id]]))
  }

  function Rest(after: After): seq<nat> {
    if after.Loop? then after.todo else []
  }

  lemma ContinueKeeps(c: Conn, after: After)
    requires Resting(c, after)
    ensures ConnInv(Continue(c, after))
  {
    hide OpInv;
    var d := Continue(c, after);
    if after.Erase? {
      forall i | 0 <= i < |d.ops| && !Stopped(d.ops[i])
        ensures Lists(d.listed, i)
      {
        var k :| k in c.listed && c.listed[k] == i;
        assert k in d.listed && d.listed[k] == i;
      }
    }
  }

  /** Just before stopping operation `i`. */
  ghost predicate AboutToStop(c: Conn, i: nat, after: After) {
    && i < |c.ops|
    && OpsInv(c.ops) && Accounted(c, [i] + Rest(after)) && Known(c, Rest(after))
    && (forall k | 0 <= k < |c.ops| && c.ops[k].Subs? :: !c.ops[k].sub.joining)
    && (!c.closed ==> c.handlers) && EndsClosed(c, after)
    && (after.Loop? ==> c.listed == map[])
    && (after.Erase? && after.id in c.listed ==> c.listed[after.id] == i)
  }

  lemma StoppedSubInv(rq: S.Request, s: S.Sub)
    requires S.Inv(rq, s) && !s.stopped
    ensures S.Inv(rq, S.StopNow(s)) && S.StopNow(s).worker == s.worker && S.StopNow(s).stopped && S.StopNow(s).joining
  {
    hide S.Inv;
    S.InvQueue(rq, s);
    S.JoiningStopped(s);
    S.StepInv(rq, s, S.Stop);
  }

  lemma StopOpKeeps(c: Conn, i: nat, after: After)
    requires AboutToStop(c, i, after)
    ensures ConnInv(StopOp(c, i, after))
  {
    hide S.Inv, S.StopNow, R.Inv;
    assert OpInv(c.ops[i]);
    match c.ops[i]
    case Regular(reg) =>
      RegularStops(reg);
      ContinueKeeps(c.(ops := c.ops[i := Regular(reg.(stopped := true))]), after);
    case Subs(rq, s, full) =>
      if s.stopped {
        ContinueKeeps(c, after);
      } else {
        StoppedSubInv(rq, s);
      }
  }

  lemma RegularStops(reg: R.Regular)
    requires R.Inv(reg)
    ensures R.Inv(reg.(stopped := true))
  {
  }

  lemma NoneJoining(c: Conn)
    requires ConnInv(c) && !c.main.Joining?
    ensures forall k | 0 <= k < |c.ops| && c.ops[k].Subs? :: !c.ops[k].sub.joining
  {
  }

  lemma StartKeeps(c: Conn, id: Id, op: Op)
    requires ConnInv(c) && Enabled(c, Start(id, op))
    ensures ConnInv(Do(c, Start(id, op)))
  {
    hide S.Inv, S.Started;
    FreshInv(op);
    var d := Do(c, Start(id, op));
    forall i | 0 <= i < |c.ops| && Lists(c.listed, i)
      ensures Lists(d.listed, i)
    {
      var k :| k in c.listed && c.listed[k] == i;
      assert k in d.listed && d.listed[k] == i;
    }
    assert id != "" ==> id in d.listed;
  }

  lemma FreshInv(op: Op)
    requires Fresh(op)
    ensures OpInv(op) && !Stopped(op) && (op.Subs? ==> !op.sub.joining)
  {
    if op.Subs? {
      var now :| op.sub == S.Started(op.rq, now);
      S.StartInv(op.rq, now);
    }
  }

  lemma StopIdKeeps(c: Conn, id: Id)
    requires ConnInv(c) && Enabled(c, StopId(id))
    ensures ConnInv(Do(c, StopId(id)))
  {
    if id in c.listed {
      var i := c.listed[id];
      StopOpKeeps(c, i, Erase(id));
    }
  }

  lemma StopAllKeeps(c: Conn, order: seq<nat>, tearingDown: bool)
    requires ConnInv(c) && Enabled(c, StopAll(order, tearingDown))
    ensures ConnInv(Do(c, StopAll(order, tearingDown)))
  {
    hide OpInv;
    ContinueKeeps(c.(listed := map[], closed := c.closed || tearingDown), Loop(order, tearingDown));
  }

  lemma StopNextKeeps(c: Conn)
    requires ConnInv(c) && Enabled(c, StopNext)
    ensures ConnInv(Do(c, StopNext))
  {
    hide OpInv;
    var i := c.main.todo[0];
    var after := Loop(c.main.todo[1..], c.main.tearingDown);
    assert c.main.todo == [i] + after.todo;
    assert forall k | k in after.todo :: k in c.main.todo;
    if Stopped(c.ops[i]) {
      ContinueKeeps(c, after);
    } else {
      StopOpKeeps(c, i, after);
    }
  }

  lemma JoinReturnedKeeps(c: Conn)
    requires ConnInv(c) && Enabled(c, JoinReturned)
    ensures ConnInv(Do(c, JoinReturned))
  {
    hide S.Inv;
    var op := c.ops[c.main.op];
    OpHolds(c, c.main.op);
    S.StepInv(op.rq, op.sub, S.JoinReturns);
    ContinueKeeps(c.(ops := c.ops[c.main.op := op.(sub := op.sub.(joining := false))]), c.main.after);
  }

  lemma MainEventKeeps(c: Conn, i: nat, e: S.Event)
    requires ConnInv(c) && Enabled(c, MainEvent(i, e))
    ensures ConnInv(Do(c, MainEvent(i, e)))
  {
    hide S.Inv, ConnInv, S.Next;
    var op := c.ops[i];
    OpHolds(c, i);
    NoneJoining(c);
    if e.DeferredStop? {
      var s1 := op.sub.(stopsScheduled := op.sub.stopsScheduled - 1);
      S.StopNotCounted(op.rq, op.sub);
      Replaced(c, i, op.(sub := s1));
      StopOpFree(c.(ops := c.ops[i := op.(sub := s1)]), i);
    } else {
      SubStepLocal(op.rq, op.sub, e);
      S.StepInv(op.rq, op.sub, e);
      Replaced(c, i, op.(sub := S.Next(op.rq, op.sub, e)));
    }
  }

  lemma StopOpFree(c: Conn, i: nat)
    requires ConnInv(c) && c.main.Free? && i < |c.ops|
    ensures ConnInv(StopOp(c, i, Return))
  {
    hide OpInv;
    StopOpKeeps(c, i, Return);
  }

  lemma SignalKeeps(c: Conn, s: Step)
    requires Enabled(c, s) && s.Signal?
    ensures Do(c, s) == c
  {
  }

  lemma DoInv(c: Conn, s: Step)
    requires ConnInv(c) && Enabled(c, s)
    ensures ConnInv(Do(c, s))
  {
    hide ConnInv, Enabled, Do;
    match s
    case Start(id, op) => StartKeeps(c, id, op);
    case StopId(id) => StopIdKeeps(c, id);
    case StopAll(order, tearingDown) => StopAllKeeps(c, order, tearingDown);
    case StopNext => StopNextKeeps(c);
    case JoinReturned => JoinReturnedKeeps(c);
    case MainEvent(i, e) => MainEventKeeps(c, i, e);
    case WorkerEvent(i, e) => WorkerKeeps(c, i, e);
    case PoolEvent(i, re) => PoolKeeps(c, i, re);
    case Signal(_) => SignalKeeps(c, s);
  }

  lemma {:induction false} RunInv(cs: seq<Conn>, ss: seq<Step>, k: nat)
    requires IsRun(cs, ss) && k < |cs|
    ensures ConnInv(cs[k])
  {
    hide ConnInv, Enabled, Do;
    if k == 0 {
      OpenInv();
    } else {
      RunInv(cs, ss, k - 1);
      DoInv(cs[k - 1], ss[k - 1]);
    }
  }

  lemma OpenInv()
    ensures ConnInv(OPEN)
  {
  }

  // ---------------------------------------------------------------- no empty handler is ever called

  /** If the step calls one of the handlers, then the one it calls is a non-empty function. */
  ghost predicate CallsOnlyFull(c: Conn, s: Step)
    requires Enabled(c, s)
  {
    match s
    case Start(id, _) => id != "" && id !in c.listed ==> c.handlers                   // offloadWork
    case MainEvent(i, e) => e.OnFuture? && !c.ops[i].sub.stopped ==> c.handlers       // currentNotificationTriggers, createTimer
    case WorkerEvent(i, e) =>
      && (e.Reply? ==> c.ops[i].copyFull)                                             // onReply, copied
      && (e.SubscribeDone? ==> c.handlers)                                            // notify
      && (e.CheckFlags? && c.ops[i].sub.flags.failed ==> c.handlers)                  // defer
    case PoolEvent(i, re) => re.ReplyData? || re.ReplyComplete? ==> c.ops[i].reg.worker.full // onReply, copied
    case Signal(_) => c.handlers                                                     // notify
    case _ => true
  }

  lemma CallsFull(c: Conn, s: Step)
    requires ConnInv(c) && Enabled(c, s)
    ensures CallsOnlyFull(c, s)
  {
    hide S.Inv;
    match s
    case WorkerEvent(i, e) =>
      OpHolds(c, i);
      LiveHasHandlers(c, i);
    case MainEvent(i, _) => OpHolds(c, i);
    case Signal(i) => LiveHasHandlers(c, i);
    case PoolEvent(i, _) =>
      OpHolds(c, i);
      R.Trace(c.ops[i].reg);
    case _ =>
  }

  /** In every interleaving, teardown included, no handler is called after it was emptied. */
  lemma NoEmptyHandler(cs: seq<Conn>, ss: seq<Step>, n: nat)
    requires IsRun(cs, ss) && n < |ss|
    ensures CallsOnlyFull(cs[n], ss[n])
  {
    hide ConnInv, Enabled, Do, CallsOnlyFull;
    RunInv(cs, ss, n);
    CallsFull(cs[n], ss[n]);
  }

  /** A signal connected to a subscription, which calls `notify`, exists only while the handlers do. */
  lemma SignalsHaveHandlers(cs: seq<Conn>, ss: seq<Step>, n: nat, i: nat)
    requires IsRun(cs, ss) && n < |cs| && IsSub(cs[n], i)
    ensures cs[n].ops[i].sub.connections > 0 || cs[n].ops[i].sub.registered ==> cs[n].handlers
  {
    hide Do, Enabled, ConnInv;
    RunInv(cs, ss, n);
    LiveHasHandlers(cs[n], i);
  }

  /** Whenever the main thread is not inside a stop, every running operation is in m_operations. */
  lemma RunningAreListed(cs: seq<Conn>, ss: seq<Step>, n: nat, i: nat)
    requires IsRun(cs, ss) && n < |cs| && cs[n].main.Free? && i < |cs[n].ops|
    ensures !Stopped(cs[n].ops[i]) ==> Lists(cs[n].listed, i)
  {
    hide Do, Enabled, OpInv;
    RunInv(cs, ss, n);
  }

  /** Once the handlers are gone every operation is stopped and no subscription holds anything any more. */
  lemma TornDown(cs: seq<Conn>, ss: seq<Step>, n: nat, i: nat)
    requires IsRun(cs, ss) && n < |cs| && !cs[n].handlers && i < |cs[n].ops|
    ensures Stopped(cs[n].ops[i])
    ensures cs[n].ops[i].Subs? ==> S.Released(cs[n].ops[i].sub)
  {
    hide Do, Enabled, ConnInv, S.Released;
    RunInv(cs, ss, n);
    OpHolds(cs[n], i);
    if cs[n].ops[i].Subs? {
      LiveHasHandlers(cs[n], i);
    }
  }

  lemma QuietStep(c: Conn, s: Step, i: nat)
    requires ConnInv(c) && Enabled(c, s) && !c.handlers && IsSub(c, i)
    ensures !Do(c, s).handlers && IsSub(Do(c, s), i) && Do(c, s).ops[i].sub.h == c.ops[i].sub.h
  {
    hide S.Released, S.StopNow, S.Accept, S.DispatchPending, S.Take, S.Checks, S.Latch, OpInv;
    LiveHasHandlers(c, i);
    OpHolds(c, i);
    match s
    case WorkerEvent(k, e) => S.ReleasedStep(c.ops[i].rq, c.ops[i].sub, if k == i then e else S.Tick(0));
    case MainEvent(k, e) => S.ReleasedStep(c.ops[i].rq, c.ops[i].sub, if k == i then e else S.Tick(0));
    case _ =>
  }

  /** And then no subscription of the connection sends anything, accepts or dispatches anything any more. */
  lemma {:induction false} QuietAfterTearDown(cs: seq<Conn>, ss: seq<Step>, k: nat, n: nat, i: nat)
    requires IsRun(cs, ss) && k <= n < |cs| && !cs[k].handlers && IsSub(cs[k], i)
    ensures !cs[n].handlers && IsSub(cs[n], i) && cs[n].ops[i].sub.h == cs[k].ops[i].sub.h
  {
    hide Do, Enabled, ConnInv;
    if k < n {
      QuietAfterTearDown(cs, ss, k, n - 1, i);
      RunInv(cs, ss, n - 1);
      QuietStep(cs[n - 1], ss[n - 1], i);
    }
  }

  /** A worker that found its operation not stopped for the second time, and is not done with its replies. */
  predicate IsReplying(r: R.Regular) {
    r.worker.Passed? || r.worker.DataSent?
  }

  predicate IsRegular(c: Conn, i: nat) {
    i < |c.ops| && c.ops[i].Regular?
  }

  lemma LateStep(c: Conn, s: Step, i: nat)
    requires ConnInv(c) && Enabled(c, s) && !c.handlers && IsRegular(c, i)
    ensures !Do(c, s).handlers && IsRegular(Do(c, s), i)
    ensures var r, r' := c.ops[i].reg, Do(c, s).ops[i].reg;
      if IsReplying(r) then r.replies <= r'.replies else !IsReplying(r') && r'.replies == r.replies
  {
    hide S.StopNow, S.Next, OpInv;
    OpHolds(c, i);
  }

  /**
    And a query or mutation sends after the teardown only what it had begun to: a worker past its second
    test the rest of data, complete, and any other nothing at all.
   */
  lemma {:induction false} LateReplies(cs: seq<Conn>, ss: seq<Step>, k: nat, n: nat, i: nat)
    requires IsRun(cs, ss) && k <= n < |cs| && !cs[k].handlers && IsRegular(cs[k], i)
    ensures !cs[n].handlers && IsRegular(cs[n], i)
    ensures cs[k].ops[i].reg.replies <= cs[n].ops[i].reg.replies <= [R.Data, R.Complete]
    ensures !IsReplying(cs[k].ops[i].reg) ==> cs[n].ops[i].reg.replies == cs[k].ops[i].reg.replies && !IsReplying(cs[n].ops[i].reg)
  {
    hide Do, Enabled, ConnInv;
    RunInv(cs, ss, n);
    if k < n {
      LateReplies(cs, ss, k, n - 1, i);
      RunInv(cs, ss, n - 1);
      LateStep(cs[n - 1], ss[n - 1], i);
    }
    OpHolds(cs[n], i);
    R.Trace(cs[n].ops[i].reg);
  }

  // ---------------------------------------------------------------- every stop ends

  /** What the worker being joined has left, and the join itself. */
  ghost function JoinLeft(c: Conn): nat {
    if c.main.Joining? && IsSub(c, c.main.op) then S.WorkLeft(c.ops[c.main.op].sub) + 1 else 0
  }

  /** The main thread's own steps and those of the worker it waits for. */
  predicate OfStop(c: Conn, s: Step) {
    match s
    case StopNext => true
    case JoinReturned => true
    case WorkerEvent(i, e) => c.main.Joining? && c.main.op == i && S.OfWorker(e) && !S.InResolver(e)
    case _ => false
  }

  predicate TearsDown(m: Main) {
    (m.Stopping? && m.tearingDown) || (m.Joining? && m.after.Loop? && m.after.tearingDown)
  }

  /** After a step of a teardown it goes on, or the handlers are emptied. */
  predicate GoesOn(c: Conn, d: Conn) {
    TearsDown(c.main) ==> if d.main.Free? then !d.handlers else TearsDown(d.main)
  }

  predicate Nearer(c: Conn, d: Conn, left: nat, leftAfter: nat) {
    |Todo(d.main)| < |Todo(c.main)| || (|Todo(d.main)| == |Todo(c.main)| && leftAfter < left)
  }

  lemma StopNextNears(c: Conn)
    requires ConnInv(c) && c.main.Stopping?
    ensures Enabled(c, StopNext) && |Todo(Do(c, StopNext).main)| < |Todo(c.main)| && GoesOn(c, Do(c, StopNext))
  {
    hide OpInv, S.StopNow;
    assert c.main.todo[0] in c.main.todo;
  }

  lemma JoinReturnedNears(c: Conn)
    requires ConnInv(c) && Enabled(c, JoinReturned)
    ensures Nearer(c, Do(c, JoinReturned), JoinLeft(c), JoinLeft(Do(c, JoinReturned))) && GoesOn(c, Do(c, JoinReturned))
  {
    hide OpInv, S.Next, S.WorkLeft, S.Enabled;
  }

  lemma WorkerNears(c: Conn, e: S.Event)
    requires ConnInv(c) && c.main.Joining? && IsSub(c, c.main.op) && Enabled(c, WorkerEvent(c.main.op, e))
    requires S.OfWorker(e) && !S.InResolver(e) && S.QueueInv(c.ops[c.main.op].sub) && c.ops[c.main.op].sub.joining
    ensures var d := Do(c, WorkerEvent(c.main.op, e));
      d.main == c.main && JoinLeft(d) < JoinLeft(c) && GoesOn(c, d)
  {
    hide ConnInv, S.Next, S.WorkLeft, S.Enabled, S.QueueInv;
    var op := c.ops[c.main.op];
    S.JoinNears(op.rq, op.sub, e);
  }

  lemma JoinedWorker(c: Conn)
    requires ConnInv(c) && c.main.Joining?
    ensures IsSub(c, c.main.op) && c.ops[c.main.op].sub.joining && S.Inv(c.ops[c.main.op].rq, c.ops[c.main.op].sub)
    ensures S.QueueInv(c.ops[c.main.op].sub)
  {
    hide S.Inv;
    OpHolds(c, c.main.op);
    S.InvQueue(c.ops[c.main.op].rq, c.ops[c.main.op].sub);
  }

  /** While a stop is not over, the main thread or the worker it waits for has a step that brings its end closer. */
  lemma StopGoesOn(c: Conn) returns (s: Step)
    requires ConnInv(c) && !c.main.Free?
    ensures Enabled(c, s) && OfStop(c, s) && GoesOn(c, Do(c, s))
    ensures Nearer(c, Do(c, s), JoinLeft(c), JoinLeft(Do(c, s)))
  {
    hide ConnInv, Do, S.Inv, S.QueueInv, S.Enabled, JoinLeft;
    if c.main.Stopping? {
      s := StopNext;
      StopNextNears(c);
    } else {
      JoinedWorker(c);
      var op := c.ops[c.main.op];
      S.JoinCanGoOn(op.rq, op.sub);
      if S.Enabled(op.sub, S.JoinReturns) {
        s := JoinReturned;
        JoinReturnedNears(c);
      } else {
        var e :| S.OfWorker(e) && !S.InResolver(e) && S.Enabled(op.sub, e);
        s := WorkerEvent(c.main.op, e);
        WorkerNears(c, e);
      }
    }
  }

  /**
    Every stop ends: finitely many steps of the main thread and of the workers it joins lead out of it, and
    out of a teardown with the handlers emptied, every operation stopped and every subscription released.
   */
  lemma {:induction false} StopEnds(c: Conn) returns (cs: seq<Conn>, ss: seq<Step>)
    requires ConnInv(c)
    ensures |cs| == |ss| + 1 && cs[0] == c
    ensures forall k | 0 <= k < |ss| :: Enabled(cs[k], ss[k]) && OfStop(cs[k], ss[k]) && cs[k + 1] == Do(cs[k], ss[k])
    ensures cs[|ss|].main.Free? && ConnInv(cs[|ss|])
    ensures TearsDown(c.main) ==> !cs[|ss|].handlers && AllReleased(cs[|ss|])
    ensures c.main.Free? ==> ss == []
    decreases |Todo(c.main)|, JoinLeft(c)
  {
    hide ConnInv, Enabled, Do, OfStop, JoinLeft, AllReleased;
    if c.main.Free? {
      cs, ss := [c], [];
    } else {
      var s := StopGoesOn(c);
      DoInv(c, s);
      var cs1, ss1 := StopEnds(Do(c, s));
      cs, ss := [c] + cs1, [s] + ss1;
      if !cs[|ss|].handlers {
        EmptiedMeansReleased(cs[|ss|]);
      }
      assert forall k | 0 < k < |ss| :: ss[k] == ss1[k - 1] && cs[k] == cs1[k - 1] && cs[k + 1] == cs1[k];
    }
  }

  ghost predicate AllReleased(c: Conn) {
    forall i | 0 <= i < |c.ops| :: Stopped(c.ops[i]) && (c.ops[i].Subs? ==> S.Released(c.ops[i].sub))
  }

  lemma EmptiedMeansReleased(c: Conn)
    requires ConnInv(c) && !c.handlers
    ensures AllReleased(c)
  {
    hide ConnInv, S.Released;
    forall i | 0 <= i < |c.ops|
      ensures Stopped(c.ops[i]) && (c.ops[i].Subs? ==> S.Released(c.ops[i].sub))
    {
      OpHolds(c, i);
      if c.ops[i].Subs? {
        LiveHasHandlers(c, i);
      }
    }
  }

  // ---------------------------------------------------------------- each operation by itself

  /** The event of subscription `i` that a step of the connection is. */
  ghost function SubSees(c: Conn, s: Step, i: nat): Option<S.Event>
    requires Enabled(c, s)
  {
    match s
    case StopId(id) => if id in c.listed && c.listed[id] == i then Some(S.Stop) else None
    case StopNext => if c.main.todo[0] == i then Some(S.Stop) else None
    case JoinReturned => if c.main.op == i then Some(S.JoinReturns) else None
    case MainEvent(k, e) => if k == i then Some(e) else None
    case WorkerEvent(k, e) => if k == i then Some(e) else None
    case _ => None
  }

  ghost function RegularSees(c: Conn, s: Step, i: nat): Option<R.Event>
    requires Enabled(c, s)
  {
    match s
    case StopId(id) => if id in c.listed && c.listed[id] == i then Some(R.Stop) else None
    case StopNext => if c.main.todo[0] == i then Some(R.Stop) else None
    case PoolEvent(k, re) => if k == i then Some(re) else None
    case _ => None
  }

  lemma ContinueOps(c: Conn, after: After)
    ensures Continue(c, after).ops == c.ops
  {
  }

  /** What a stop of operation `k` does to operation `i`. */
  lemma StopOpFollows(c: Conn, k: nat, after: After, i: nat)
    requires k < |c.ops| && i < |c.ops|
    ensures |StopOp(c, k, after).ops| == |c.ops| && (i != k ==> StopOp(c, k, after).ops[i] == c.ops[i])
    ensures c.ops[k].Subs? ==> StopOp(c, k, after).ops[k] == c.ops[k].(sub := S.StopNow(c.ops[k].sub))
    ensures c.ops[k].Regular? ==> StopOp(c, k, after).ops[k] == Regular(c.ops[k].reg.(stopped := true))
  {
    hide Continue;
    ContinueOps(c, after);
    match c.ops[k]
    case Regular(reg) => ContinueOps(c.(ops := c.ops[k := Regular(reg.(stopped := true))]), after);
    case Subs(_, _, _) =>
  }

  /** The operation after the step: what the event it saw makes of it, or what it was. */
  ghost predicate SubMoves(c: Conn, d: Conn, i: nat, e: Option<S.Event>)
    requires IsSub(c, i)
  {
    && IsSub(d, i) && d.ops[i].rq == c.ops[i].rq
    && (if e.None? then d.ops[i].sub == c.ops[i].sub
        else S.Enabled(c.ops[i].sub, e.value) && d.ops[i].sub == S.Next(c.ops[i].rq, c.ops[i].sub, e.value))
  }

  /** The worker's copy of `onReply` is what is there when the worker makes it. */
  predicate CopyMoves(c: Conn, d: Conn, i: nat)
    requires IsSub(c, i) && IsSub(d, i)
  {
    d.ops[i].copyFull ==
      if d.ops[i].sub.worker.Copied? && !c.ops[i].sub.worker.Copied? then c.handlers else c.ops[i].copyFull
  }

  lemma SubFollowsStop(c: Conn, s: Step, i: nat)
    requires ConnInv(c) && Enabled(c, s) && IsSub(c, i) && (s.StopId? || s.StopAll? || s.StopNext?)
    ensures SubMoves(c, Do(c, s), i, SubSees(c, s, i)) && CopyMoves(c, Do(c, s), i)
  {
    hide OpInv, Continue, StopOp, S.StopNow;
    NoneJoining(c);
    match s
    case StopId(id) =>
      if id in c.listed {
        StopOpFollows(c, c.listed[id], Erase(id), i);
        StopWorker(c.ops[i].sub);
      }
    case StopAll(order, tearingDown) =>
      ContinueOps(c.(listed := map[], closed := c.closed || tearingDown), Loop(order, tearingDown));
    case StopNext =>
      var k, after := c.main.todo[0], Loop(c.main.todo[1..], c.main.tearingDown);
      StopOpFollows(c, k, after, i);
      ContinueOps(c, after);
      StopWorker(c.ops[i].sub);
  }

  lemma StopWorker(s: S.Sub)
    ensures S.StopNow(s).worker == s.worker && (s.stopped ==> S.StopNow(s) == s)
  {
  }

  lemma SubFollowsJoin(c: Conn, i: nat)
    requires ConnInv(c) && Enabled(c, JoinReturned) && IsSub(c, i)
    ensures SubMoves(c, Do(c, JoinReturned), i, SubSees(c, JoinReturned, i)) && CopyMoves(c, Do(c, JoinReturned), i)
  {
    hide ConnInv, Continue, S.Enabled;
    var k := c.main.op;
    var n := S.Next(c.ops[k].rq, c.ops[k].sub, S.JoinReturns);
    ContinueOps(c.(ops := c.ops[k := c.ops[k].(sub := n)]), c.main.after);
  }

  lemma MainWorker(rq: S.Request, s: S.Sub, e: S.Event)
    requires S.Enabled(s, e) && (e.OnFuture? || e.TimerHandler?)
    ensures S.Next(rq, s, e).worker == s.worker
  {
  }

  lemma SubFollowsMain(c: Conn, k: nat, e: S.Event, i: nat)
    requires ConnInv(c) && Enabled(c, MainEvent(k, e)) && IsSub(c, i)
    ensures SubMoves(c, Do(c, MainEvent(k, e)), i, SubSees(c, MainEvent(k, e), i)) && CopyMoves(c, Do(c, MainEvent(k, e)), i)
  {
    hide ConnInv, StopOp, S.StopNow, S.Accept, S.DispatchPending;
    var op := c.ops[k];
    if e.DeferredStop? {
      var s1 := op.sub.(stopsScheduled := op.sub.stopsScheduled - 1);
      StopOpFollows(c.(ops := c.ops[k := op.(sub := s1)]), k, Return, i);
      StopWorker(s1);
    } else {
      MainWorker(op.rq, op.sub, e);
    }
  }

  lemma WorkerCopies(rq: S.Request, s: S.Sub, e: S.Event)
    requires S.Enabled(s, e)
    ensures CopiesHandler(s, e) <==> S.Next(rq, s, e).worker.Copied? && !s.worker.Copied?
  {
    hide S.Accept, S.DispatchPending, S.Checks, S.StopNow;
    StopWorker(s);
    match e
    case OnFuture(_, _) => MainWorker(rq, s, e);
    case TimerHandler => MainWorker(rq, s, e);
    case DeferredStop => StopWorker(s.(stopsScheduled := s.stopsScheduled - 1));
    case Validate(required) => ChecksWorker(rq, s, required);
    case _ =>
  }

  lemma ChecksWorker(rq: S.Request, s: S.Sub, required: seq<Permission>)
    ensures S.Checks(rq, s, required).worker == s.worker
  {
  }

  lemma SubFollowsWorker(c: Conn, k: nat, e: S.Event, i: nat)
    requires Enabled(c, WorkerEvent(k, e)) && IsSub(c, i)
    ensures SubMoves(c, Do(c, WorkerEvent(k, e)), i, SubSees(c, WorkerEvent(k, e), i))
    ensures CopyMoves(c, Do(c, WorkerEvent(k, e)), i)
  {
    hide S.Next, CopiesHandler;
    WorkerCopies(c.ops[k].rq, c.ops[k].sub, e);
  }

  /**
    Whatever the connection does, to a subscription it is one event of the subscription or nothing, and the
    worker's copy of `onReply` is what is there when it is made.
   */
  lemma SubFollows(c: Conn, s: Step, i: nat)
    requires ConnInv(c) && Enabled(c, s) && IsSub(c, i)
    ensures SubMoves(c, Do(c, s), i, SubSees(c, s, i)) && CopyMoves(c, Do(c, s), i)
  {
    hide ConnInv, S.Next, S.Enabled;
    match s
    case JoinReturned => SubFollowsJoin(c, i);
    case MainEvent(k, e) => SubFollowsMain(c, k, e, i);
    case WorkerEvent(k, e) => SubFollowsWorker(c, k, e, i);
    case StopId(_) => SubFollowsStop(c, s, i);
    case StopAll(_, _) => SubFollowsStop(c, s, i);
    case StopNext => SubFollowsStop(c, s, i);
    case _ =>
  }

  lemma RegularFollows(c: Conn, s: Step, i: nat)
    requires ConnInv(c) && Enabled(c, s) && IsRegular(c, i)
    ensures IsRegular(Do(c, s), i)
    ensures var e, r0, r1 := RegularSees(c, s, i), c.ops[i].reg, Do(c, s).ops[i].reg;
      if e.None? then r1 == r0 else R.Enabled(r0, e.value) && r1 == R.Next(r0, e.value)
  {
    hide S.StopNow, S.Next, OpInv;
  }

  /** The events of subscription `i` from moment `k` to moment `n`. */
  ghost function SeenBy(cs: seq<Conn>, ss: seq<Step>, k: nat, n: nat, i: nat): seq<S.Event>
    requires |cs| == |ss| + 1 && k <= n < |cs| && forall m | k <= m < n :: Enabled(cs[m], ss[m])
  {
    if k == n then []
    else
      var e := SubSees(cs[n - 1], ss[n - 1], i);
      SeenBy(cs, ss, k, n - 1, i) + if e.Some? then [e.value] else []
  }

  /**
    So in every run of the connection each of its subscriptions goes through a run of its own, with exactly the
    events it saw: whatever holds in every run of a subscription holds of it inside a connection.
   */
  lemma {:induction false} SubscriptionRun(cs: seq<Conn>, ss: seq<Step>, k: nat, n: nat, i: nat) returns (trace: seq<S.Sub>)
    requires IsRun(cs, ss) && k <= n < |cs| && IsSub(cs[k], i)
    ensures IsSub(cs[n], i) && cs[n].ops[i].rq == cs[k].ops[i].rq
    ensures S.Steps(cs[k].ops[i].rq, trace, SeenBy(cs, ss, k, n, i))
    ensures trace[0] == cs[k].ops[i].sub && trace[|trace| - 1] == cs[n].ops[i].sub
    decreases n
  {
    hide ConnInv, Enabled, Do, S.Enabled, S.Next, SubSees;
    if k == n {
      trace := [cs[n].ops[i].sub];
    } else {
      trace := SubscriptionRun(cs, ss, k, n - 1, i);
      RunInv(cs, ss, n - 1);
      SubFollows(cs[n - 1], ss[n - 1], i);
      var e := SubSees(cs[n - 1], ss[n - 1], i);
      if e.Some? {
        trace := trace + [cs[n].ops[i].sub];
      }
    }
  }

  /** From its start message on it is a run of a subscription that was just started. */
  lemma StartedSubscriptionRun(cs: seq<Conn>, ss: seq<Step>, k: nat, n: nat) returns (trace: seq<S.Sub>)
    requires IsRun(cs, ss) && k < n < |cs| && ss[k].Start? && ss[k].op.Subs?
    requires ss[k].id != "" && ss[k].id !in cs[k].listed
    ensures var i := |cs[k].ops|;
      && IsSub(cs[n], i) && S.IsRun(ss[k].op.rq, trace, SeenBy(cs, ss, k + 1, n, i))
      && trace[|trace| - 1] == cs[n].ops[i].sub && cs[n].ops[i].rq == ss[k].op.rq
  {
    hide ConnInv, S.Started, S.Enabled, S.Next, SeenBy, Do, Enabled, SubSees;
    AddedBy(cs[k], ss[k]);
    trace := SubscriptionRun(cs, ss, k + 1, n, |cs[k].ops|);
    var now :| ss[k].op.sub == S.Started(ss[k].op.rq, now);
    assert trace[0] == S.Started(ss[k].op.rq, now);
  }

  lemma AddedBy(c: Conn, s: Step)
    requires Enabled(c, s) && s.Start? && s.id != "" && s.id !in c.listed
    ensures Fresh(s.op) && Do(c, s) == c.(ops := c.ops + [s.op], listed := c.listed[s.id := |c.ops|])
  {
  }

  // ---------------------------------------------------------------- what a stop achieves

  lemma StoppedStays(c: Conn, s: Step, i: nat)
    requires ConnInv(c) && Enabled(c, s) && i < |c.ops| && Stopped(c.ops[i])
    ensures i < |Do(c, s).ops| && Stopped(Do(c, s).ops[i])
  {
    hide ConnInv, Enabled, Do, SubSees, RegularSees, S.Next, S.Enabled, CopyMoves;
    match c.ops[i]
    case Regular(_) => RegularFollows(c, s, i);
    case Subs(rq, sub, _) =>
      SubFollows(c, s, i);
      if SubSees(c, s, i).Some? {
        SubStoppedStays(rq, sub, SubSees(c, s, i).value);
      }
  }

  lemma SubStoppedStays(rq: S.Request, s: S.Sub, e: S.Event)
    requires S.Enabled(s, e) && s.stopped
    ensures S.Next(rq, s, e).stopped
  {
  }

  /** An id gets into m_operations only by its start message. */
  lemma ListedStep(c: Conn, s: Step)
    requires ConnInv(c) && Enabled(c, s)
    ensures |c.ops| <= |Do(c, s).ops|
    ensures forall id | id in Do(c, s).listed ::
      if id in c.listed then Do(c, s).listed[id] == c.listed[id] else s.Start? && s.id == id && Do(c, s).listed[id] == |c.ops|
  {
    hide OpInv, S.Next, S.Enabled, S.StopNow, CopiesHandler;
  }

  /** Only the main thread's own steps take it out of a stop. */
  lemma MainStays(c: Conn, s: Step)
    requires Enabled(c, s) && !c.main.Free? && !s.StopNext? && !s.JoinReturned?
    ensures Do(c, s).main == c.main && Do(c, s).listed == c.listed && Do(c, s).handlers == c.handlers
  {
    hide S.Next, S.Enabled, S.StopNow;
  }

  lemma StopIdStep(c: Conn, id: Id)
    requires ConnInv(c) && Enabled(c, StopId(id)) && id in c.listed
    ensures var d, i := Do(c, StopId(id)), c.listed[id];
      && i < |d.ops| && Stopped(d.ops[i])
      && ((d.main == Joining(i, Erase(id)) && d.listed == c.listed) || (d.main.Free? && d.listed == c.listed - {id}))
  {
    hide OpInv;
  }

  lemma ErasingStep(c: Conn, s: Step, id: Id)
    requires ConnInv(c) && Enabled(c, s) && c.main.Joining? && c.main.after == Erase(id)
    ensures Do(c, s).main == c.main || (Do(c, s).main.Free? && Do(c, s).listed == c.listed - {id})
  {
    hide ConnInv, S.Next, S.Enabled;
    if !s.JoinReturned? {
      MainStays(c, s);
    }
  }

  predicate Starts(s: Step, id: Id) {
    s.Start? && s.id == id
  }

  lemma {:induction false} StoppedForGood(cs: seq<Conn>, ss: seq<Step>, m: nat, n: nat, i: nat)
    requires IsRun(cs, ss) && m <= n < |cs| && i < |cs[m].ops| && Stopped(cs[m].ops[i])
    ensures i < |cs[n].ops| && Stopped(cs[n].ops[i])
  {
    hide ConnInv, Enabled, Do, Stopped;
    if m < n {
      StoppedForGood(cs, ss, m, n - 1, i);
      RunInv(cs, ss, n - 1);
      StoppedStays(cs[n - 1], ss[n - 1], i);
    }
  }

  /**
    A stop of a known id: the operation is stopped at once and for good, and until the id is started again the
    main thread is either still waiting for the operation's worker or the id is no longer in m_operations.
   */
  lemma {:induction false} StopIdIsDone(cs: seq<Conn>, ss: seq<Step>, k: nat, n: nat, id: Id)
    requires IsRun(cs, ss) && k < n < |cs| && ss[k] == StopId(id) && id in cs[k].listed
    ensures var i := cs[k].listed[id]; i < |cs[n].ops| && Stopped(cs[n].ops[i])
    ensures (forall m | k < m < n :: !Starts(ss[m], id)) ==>
      || id !in cs[n].listed
      || forall m | k < m <= n :: cs[m].main == Joining(cs[k].listed[id], Erase(id))
  {
    hide ConnInv, Enabled, Do, Stopped;
    RunInv(cs, ss, n - 1);
    if n == k + 1 {
      StopIdStep(cs[k], id);
    } else {
      StopIdIsDone(cs, ss, k, n - 1, id);
      StoppedForGood(cs, ss, n - 1, n, cs[k].listed[id]);
      if id in cs[n - 1].listed {
        if cs[n - 1].main == Joining(cs[k].listed[id], Erase(id)) {
          ErasingStep(cs[n - 1], ss[n - 1], id);
        }
      } else {
        ListedStep(cs[n - 1], ss[n - 1]);
      }
    }
  }

  lemma StopAllEmpties(c: Conn, order: seq<nat>, tearingDown: bool)
    requires Enabled(c, StopAll(order, tearingDown))
    ensures var d := Do(c, StopAll(order, tearingDown));
      && d.listed == map[] && d.ops == c.ops
      && (tearingDown ==> Emptying(d))
  {
  }

  /** The handlers are gone, or the main thread is on its way to empty them. */
  predicate Emptying(c: Conn) {
    !c.handlers || TearsDown(c.main)
  }

  lemma EmptyingStep(c: Conn, s: Step)
    requires ConnInv(c) && Enabled(c, s) && Emptying(c)
    ensures Emptying(Do(c, s))
  {
    hide OpInv, S.Next, S.Enabled, S.StopNow;
    if TearsDown(c.main) && !s.StopNext? && !s.JoinReturned? {
      MainStays(c, s);
    }
  }

  lemma {:induction false} UnlistedSince(cs: seq<Conn>, ss: seq<Step>, k: nat, m: nat, i: nat)
    requires IsRun(cs, ss) && k < m < |cs| && ss[k].StopAll? && i < |cs[k].ops|
    ensures i < |cs[m].ops| && !Lists(cs[m].listed, i)
    ensures ss[k].tearingDown ==> Emptying(cs[m])
  {
    hide ConnInv, Enabled, Do, Emptying;
    RunInv(cs, ss, m - 1);
    if m == k + 1 {
      StopAllEmpties(cs[k], ss[k].order, ss[k].tearingDown);
    } else {
      UnlistedSince(cs, ss, k, m - 1, i);
      ListedStep(cs[m - 1], ss[m - 1]);
      if ss[k].tearingDown {
        EmptyingStep(cs[m - 1], ss[m - 1]);
      }
    }
  }

  /**
    Once the main thread is free again after `stop()`, every operation there was at its call is stopped for
    good; after `tearDown()` the handlers are gone as well.
   */
  lemma StopAllIsDone(cs: seq<Conn>, ss: seq<Step>, k: nat, m: nat, n: nat, i: nat)
    requires IsRun(cs, ss) && k < m <= n < |cs| && ss[k].StopAll? && cs[m].main.Free? && i < |cs[k].ops|
    ensures i < |cs[n].ops| && Stopped(cs[n].ops[i])
    ensures ss[k].tearingDown ==> !cs[m].handlers
  {
    hide ConnInv, Enabled, Do, Stopped, Lists;
    UnlistedSince(cs, ss, k, m, i);
    RunningAreListed(cs, ss, m, i);
    StoppedForGood(cs, ss, m, n, i);
  }

  lemma ClosedStep(c: Conn, s: Step)
    requires Enabled(c, s)
    ensures Do(c, s).closed <==> c.closed || (s.StopAll? && s.tearingDown)
  {
    hide S.Next, S.Enabled, S.StopNow;
  }

  /** The connection takes start and stop messages up to its first teardown. */
  lemma {:induction false} ClosedExactly(cs: seq<Conn>, ss: seq<Step>, n: nat)
    requires IsRun(cs, ss) && n < |cs|
    ensures cs[n].closed <==> exists k | 0 <= k < n :: ss[k].StopAll? && ss[k].tearingDown
  {
    hide Enabled, Do;
    if n > 0 {
      ClosedExactly(cs, ss, n - 1);
      ClosedStep(cs[n - 1], ss[n - 1]);
    }
  }

  // ---------------------------------------------------------------- the connection object

  lemma AboutToStopKnows(c: Conn, i: nat, after: After)
    requires AboutToStop(c, i, after)
    ensures i < |c.ops|
  {
  }

  lemma StopIdReady(c: Conn, id: Id)
    requires ConnInv(c) && c.main.Free? && id in c.listed
    ensures AboutToStop(c, c.listed[id], Erase(id))
  {
    hide OpInv;
  }

  lemma StopNextReady(c: Conn)
    requires ConnInv(c) && Enabled(c, StopNext)
    ensures AboutToStop(c, c.main.todo[0], Loop(c.main.todo[1..], c.main.tearingDown))
  {
    hide OpInv;
    assert c.main.todo == [c.main.todo[0]] + c.main.todo[1..];
    assert forall k | k in c.main.todo[1..] :: k in c.main.todo;
  }

  /** Operation `i` is told to stop; no other one changes. */
  ghost predicate OneStopped(was: seq<Op>, now: seq<Op>, i: nat) {
    && i < |was| == |now| && (forall k | 0 <= k < |was| && k != i :: now[k] == was[k])
    && match was[i]
       case Regular(reg) => now[i] == Regular(reg.(stopped := true))
       case Subs(rq, s, full) =>
         if s.stopped then now[i] == was[i]
         else now[i] == Subs(rq, s.(stopped := true, joining := true, timer := None, pending := None,
                                    queue := s.queue + [S.Unsubscribe]), full)
  }

  /** Nothing is left to wait for: the operation is erased, the loop goes on, or at its end the handlers are emptied. */
  predicate Proceeded(was: Conn, now: Conn, after: After) {
    && now.closed == was.closed
    && now.main == (if after.Loop? && after.todo != [] then Stopping(after.todo, after.tearingDown) else Free)
    && now.listed == (if after.Erase? then was.listed - {after.id} else was.listed)
    && now.handlers == (was.handlers && !(after.Loop? && after.todo == [] && after.tearingDown))
  }

  lemma StopFields(s: S.Sub)
    requires !s.stopped
    ensures S.StopNow(s) == s.(stopped := true, joining := true, timer := None, pending := None, queue := s.queue + [S.Unsubscribe])
  {
  }

  /** A subscription that was not stopped yet: its worker has to be waited for. */
  predicate NeedsJoin(ops: seq<Op>, i: nat) {
    i < |ops| && ops[i].Subs? && !ops[i].sub.stopped
  }

  /** A start message: `Refused` when its payload was no valid operation. */
  datatype StartResult = MissingId | Duplicate | Refused | Added

  class GraphQLConnection {
    var handlers: bool
    var closed: bool
    var operations: map<Id, nat>
    var main: Main
    // every operation object, alive or not
    var objects: seq<Op>

    ghost function State(): Conn
      reads this
    {
      Conn(handlers, closed, operations, objects, main)
    }

    ghost predicate Valid()
      reads this
    {
      ConnInv(State())
    }

    /** Constructed and set up. */
    constructor ()
      ensures Valid() && State() == OPEN
    {
      handlers, closed, operations, main, objects := true, false, map[], Free, [];
      new;
      OpenInv();
    }

    /** `made` is what `GraphQLConnectionOperation::make` returned, or nothing when it threw. */
    method OnGraphQLStart(id: Id, made: Option<Op>) returns (r: StartResult)
      requires Valid() && main.Free? && !closed && (made.Some? ==> Fresh(made.value))
      modifies this
      ensures Valid()
      ensures r == if id == "" then MissingId else if id in old(operations) then Duplicate else if made.None? then Refused else Added
      ensures made.Some? ==> State() == Do(old(State()), Start(id, made.value))
      ensures r != Added ==> State() == old(State())
      ensures r == Added ==> made.Some? && objects == old(objects) + [made.value] && operations == old(operations)[id := |old(objects)|]
      ensures handlers == old(handlers) && closed == old(closed) && main == old(main)
    {
      hide ConnInv, Fresh;
      if id == "" {
        return MissingId;
      }
      if id in operations {
        return Duplicate;
      }
      if made.None? {
        return Refused;
      }
      StartKeeps(State(), id, made.value);
      operations := operations[id := |objects|];
      objects := objects + [made.value];
      r := Added;
    }

    /** Stopping one operation, up to the join if there is one. */
    method StopOperation(i: nat, after: After)
      requires AboutToStop(State(), i, after)
      modifies this
      ensures Valid() && State() == StopOp(old(State()), i, after)
      ensures OneStopped(old(objects), objects, i)
      ensures NeedsJoin(old(objects), i) ==>
        main == Joining(i, after) && operations == old(operations) && handlers == old(handlers) && closed == old(closed)
      ensures !NeedsJoin(old(objects), i) ==> Proceeded(old(State()), State(), after)
    {
      hide ConnInv, AboutToStop, S.StopNow, Continue;
      StopOpKeeps(State(), i, after);
      ghost var was := State();
      AboutToStopKnows(was, i, after);
      match objects[i]
      case Regular(reg) =>
        objects := objects[i := Regular(reg.(stopped := true))];
        Proceed(after);
      case Subs(rq, s, full) =>
        if s.stopped {
          Proceed(after);
        } else {
          StopFields(s);
          objects := objects[i := Subs(rq, S.StopNow(s), full)];
          main := Joining(i, after);
        }
    }

    /** What comes after a stop: erase the operation, go on with the loop, or empty the handlers at its end. */
    method Proceed(after: After)
      modifies this
      ensures State() == Continue(old(State()), after)
      ensures objects == old(objects) && Proceeded(old(State()), State(), after)
    {
      match after
      case Return => main := Free;
      case Erase(id) =>
        main := Free;
        operations := operations - {id};
      case Loop(todo, tearingDown) =>
        if todo != [] {
          main := Stopping(todo, tearingDown);
        } else {
          main := Free;
          if tearingDown {
            handlers := false;
          }
        }
    }

    method OnGraphQLStop(id: Id)
      requires Valid() && main.Free? && !closed
      modifies this
      ensures Valid() && State() == Do(old(State()), StopId(id))
      ensures id !in old(operations) ==> State() == old(State())
      ensures id in old(operations) ==>
        var i := old(operations)[id];
        && OneStopped(old(objects), objects, i) && handlers == old(handlers) && closed == old(closed)
        && if NeedsJoin(old(objects), i) then main == Joining(i, Erase(id)) && operations == old(operations)
           else main.Free? && operations == old(operations) - {id}
    {
      hide ConnInv, AboutToStop, StopOp, OneStopped;
      if id !in operations {
        return;
      }
      StopIdReady(State(), id);
      AboutToStopKnows(State(), operations[id], Erase(id));
      StopOperation(operations[id], Erase(id));
    }

    /** `stop()` and, with `tearingDown`, `tearDown()`: m_operations is emptied before the loop over what was in it. */
    method BeginStop(order: seq<nat>, tearingDown: bool)
      requires Valid() && Enabled(State(), StopAll(order, tearingDown))
      modifies this
      ensures Valid() && State() == Do(old(State()), StopAll(order, tearingDown))
      ensures operations == map[] && objects == old(objects) && (closed <==> old(closed) || tearingDown)
      ensures main == (if order == [] then Free else Stopping(order, tearingDown))
      ensures handlers <==> old(handlers) && !(order == [] && tearingDown)
    {
      hide ConnInv, Continue;
      ghost var was := State();
      StopAllKeeps(was, order, tearingDown);
      operations := map[];
      closed := closed || tearingDown;
      assert State() == was.(listed := map[], closed := was.closed || tearingDown);
      Proceed(Loop(order, tearingDown));
    }

    /** One turn of that loop. */
    method StopNextOperation()
      requires Valid() && Enabled(State(), StopNext)
      modifies this
      ensures Valid() && State() == Do(old(State()), StopNext)
      ensures |old(main).todo| > 0 && operations == old(operations) && closed == old(closed)
      ensures var i, after := old(main).todo[0], Loop(old(main).todo[1..], old(main).tearingDown);
        && OneStopped(old(objects), objects, i)
        && if NeedsJoin(old(objects), i) then main == Joining(i, after) && handlers == old(handlers)
           else Proceeded(old(State()), State(), after)
    {
      hide ConnInv, AboutToStop, StopOp, Continue;
      StopNextKeeps(State());
      StopNextReady(State());
      var i := main.todo[0];
      var after := Loop(main.todo[1..], main.tearingDown);
      if Stopped(objects[i]) {
        Proceed(after);
      } else {
        StopOperation(i, after);
      }
    }

    /** The subscription's worker came to its end. */
    method JoinEnds()
      requires Valid() && Enabled(State(), JoinReturned)
      modifies this
      ensures Valid() && State() == Do(old(State()), JoinReturned)
      ensures Proceeded(old(State()), State(), old(main).after)
      ensures IsSub(old(State()), old(main).op) && |objects| == |old(objects)|
      ensures objects == old(objects)[old(main).op := old(objects)[old(main).op].(sub := old(objects)[old(main).op].sub.(joining := false))]
    {
      hide ConnInv, Continue;
      JoinReturnedKeeps(State());
      var i := main.op;
      objects := objects[i := objects[i].(sub := objects[i].sub.(joining := false))];
      Proceed(main.after);
    }
  }
}
