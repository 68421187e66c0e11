/** One HTTP request for an operation that is no subscription: the main thread, the worker and the server's stop. */
module Http {
  import opened Basics
  import opened Messages
  import opened RegularOperation

  /** What authorizing and building the operation came to. */
  datatype Outcome = Threw(what: string) | Started

  /** `resolved`: what the operation's data reply carried. */
  datatype Request = Request(
    arrived: bool,
    handlers: bool,
    connected: bool,
    listed: bool,
    op: Option<Regular>,
    outcome: Outcome,
    resolved: Value,
    posted: seq<Answer>,
    answers: seq<Answer>,
    dones: nat)

  datatype Step =
    | Arrive(outcome: Outcome)
    | Work(e: Event, result: Value)
    | RunPosted
    | ServerStop
    | ServerClose

  const NEW := Request(false, false, false, false, None, Started, Null, [], [], 0)
  const HTTP_ID := "0"

  /** `GraphQLConnection::stop()`: the operations are taken out first, then stopped. */
  function StopOperations(r: Request): Request {
    if r.listed && r.op.Some? then r.(listed := false, op := Some(Next(r.op.value, Stop)))
    else r.(listed := false)
  }

  function TearDown(r: Request): Request {
    StopOperations(r).(handlers := false)
  }

  function ConnectionDone(r: Request): Request {
    TearDown(r.(connected := false, dones := r.dones + 1))
  }

  function Post(r: Request, response: Value): Request
    requires response.Map?
  {
    var answer := Answered(response);
    if answer.Some? then r.(posted := r.posted + [answer.value]) else r
  }

  /** The copy of the handler is as full as the handlers are at that moment. */
  predicate CanDo(r: Request, s: Step) {
    match s
    case Arrive(_) => !r.arrived
    case Work(e, _) => r.op.Some? && !e.Stop? && Enabled(r.op.value, e) && (e.Take? ==> e.full == r.handlers)
    case RunPosted => r.posted != []
    case ServerStop => r.connected
    case ServerClose => r.connected && (r.op.Some? ==> r.op.value.worker.Finished?)
  }

  function Do(r: Request, s: Step): Request
    requires CanDo(r, s)
  {
    match s
    case Arrive(outcome) =>
      var r1 := r.(arrived := true, handlers := true, connected := true, outcome := outcome);
      if outcome.Threw? then Post(r1, Map(Response(GQL_CONNECTION_ERROR, HTTP_ID, ErrorPayload(outcome.what))))
      else r1.(op := Some(STARTED), listed := true)
    case Work(e, result) =>
      var r1 := r.(op := Some(Next(r.op.value, e)));
      if e.ReplyData? then Post(r1.(resolved := result), Map(Response(GQL_DATA, HTTP_ID, result)))
      else if e.ReplyComplete? then Post(r1, Map(Response(GQL_COMPLETE, HTTP_ID, Null)))
      else r1
    case RunPosted => ConnectionDone(r.(posted := r.posted[1..], answers := r.answers + [r.posted[0]]))
    case ServerStop => StopOperations(r)
    case ServerClose => r.(connected := false)
  }

  ghost predicate IsRun(rs: seq<Request>, ss: seq<Step>) {
    |rs| == |ss| + 1 && rs[0] == NEW && forall i | 0 <= i < |ss| :: CanDo(rs[i], ss[i]) && rs[i + 1] == Do(rs[i], ss[i])
  }

  predicate Replied(r: Request) {
    r.op.Some? && r.op.value.replies != []
  }

  predicate Refused(r: Request) {
    r.arrived && r.outcome.Threw?
  }

  ghost predicate ReqInv(r: Request) {
    && (r.op.Some? <==> r.arrived && r.outcome.Started?)
    && (r.op.Some? ==> RegularOperation.Inv(r.op.value))
    && |r.answers| + |r.posted| == (if Refused(r) || Replied(r) then 1 else 0)
    && r.dones == |r.answers|
    && (r.op.Some? && !r.op.value.stopped ==> r.listed && r.handlers)
    && (!r.arrived ==> r == NEW)
    && (forall a | a in r.answers + r.posted :: RightAnswer(r, a))
  }

  /** The mapped error, or exactly what was resolved. */
  predicate RightAnswer(r: Request, a: Answer) {
    if Refused(r) then a == Answer(ErrorStatus(CString(r.outcome.what)), ErrorPayload(r.outcome.what))
    else Some(a) == Answered(Map(Response(GQL_DATA, HTTP_ID, r.resolved)))
  }

  lemma DataIsAnswered(result: Value)
    ensures Answered(Map(Response(GQL_DATA, HTTP_ID, result))).Some?
    ensures Answered(Map(Response(GQL_COMPLETE, HTTP_ID, Null))).None?
  {
    DifferentTypes();
    CStringWhole(GQL_DATA);
    CStringWhole(GQL_COMPLETE);
    ResponseRead(GQL_DATA, HTTP_ID, result);
    ResponseRead(GQL_COMPLETE, HTTP_ID, Null);
  }

  lemma DoInvArrive(r: Request, s: Step)
    requires ReqInv(r) && CanDo(r, s) && s.Arrive?
    ensures ReqInv(Do(r, s))
  {
    hide Answered, Response, ErrorStatus, ErrorPayload, CString;
    if s.outcome.Threw? {
      ErrorAnswer(HTTP_ID, s.outcome.what);
    }
  }

  lemma DoInvWork(r: Request, s: Step)
    requires ReqInv(r) && CanDo(r, s) && s.Work?
    ensures ReqInv(Do(r, s))
  {
    hide Answered, Response, ErrorStatus, ErrorPayload, CString;
    RegularOperation.StepInv(r.op.value, s.e);
    DataIsAnswered(s.result);
  }

  lemma DoInvMain(r: Request, s: Step)
    requires ReqInv(r) && CanDo(r, s) && (s.RunPosted? || s.ServerStop? || s.ServerClose?)
    ensures ReqInv(Do(r, s))
  {
    hide Answered, Response, ErrorStatus, ErrorPayload, CString, RegularOperation.Inv;
    assert s.RunPosted? ==> (r.answers + [r.posted[0]]) + r.posted[1..] == r.answers + r.posted;
    if r.op.Some? {
      RegularOperation.StepInv(r.op.value, Stop);
    }
    var t := Do(r, s);
    assert Refused(t) == Refused(r) && t.resolved == r.resolved && t.outcome == r.outcome;
  }

  lemma DoInv(r: Request, s: Step)
    requires ReqInv(r) && CanDo(r, s)
    ensures ReqInv(Do(r, s))
  {
    hide ReqInv, CanDo, Do;
    match s
    case Arrive(_) => DoInvArrive(r, s);
    case Work(_, _) => DoInvWork(r, s);
    case _ => DoInvMain(r, s);
  }

  lemma {:induction false} RunInv(rs: seq<Request>, ss: seq<Step>, i: nat)
    requires IsRun(rs, ss) && i < |rs|
    ensures ReqInv(rs[i])
  {
    hide Do, CanDo, ReqInv;
    if i == 0 {
      NewInv();
    } else {
      RunInv(rs, ss, i - 1);
      DoInv(rs[i - 1], ss[i - 1]);
    }
  }

  lemma NewInv()
    ensures ReqInv(NEW)
  {
  }

  /** Nothing will ever happen to this request again, short of the server closing. */
  predicate Quiescent(r: Request) {
    r.arrived && r.posted == [] && (r.op.Some? ==> r.op.value.worker.Finished?)
  }

  /** The step at which the operation finds itself not stopped for the second time. */
  predicate PassesAt(r: Request, s: Step) {
    s.Work? && r.op.Some? && Passing(r.op.value, s.e)
  }

  predicate PastSecondTest(r: Request) {
    r.op.Some? && (r.op.value.worker.Passed? || r.op.value.replies != [])
  }

  lemma PastStep(r: Request, s: Step)
    requires ReqInv(r) && CanDo(r, s)
    ensures PastSecondTest(Do(r, s)) <==> PastSecondTest(r) || PassesAt(r, s)
  {
    hide Answered, Response, ErrorStatus, ErrorPayload, CString;
  }

  lemma {:induction false} PastExactly(rs: seq<Request>, ss: seq<Step>, n: nat)
    requires IsRun(rs, ss) && n < |rs|
    ensures PastSecondTest(rs[n]) <==> exists k :: 0 <= k < n && PassesAt(rs[k], ss[k])
  {
    hide Do, CanDo, ReqInv, PassesAt;
    if n > 0 {
      PastExactly(rs, ss, n - 1);
      RunInv(rs, ss, n - 1);
      PastStep(rs[n - 1], ss[n - 1]);
    }
  }

  /** Whatever the interleaving: the trace, and at most one response with its one `onConnectionDone`. */
  lemma AtMostOneAnswer(rs: seq<Request>, ss: seq<Step>, n: nat)
    requires IsRun(rs, ss) && n < |rs|
    ensures rs[n].op.Some? ==> rs[n].op.value.replies <= [Data, Complete]
    ensures |rs[n].answers| <= 1 && rs[n].dones == |rs[n].answers|
    ensures forall a | a in rs[n].answers :: RightAnswer(rs[n], a)
  {
    hide Do, CanDo;
    RunInv(rs, ss, n);
    if rs[n].op.Some? {
      Trace(rs[n].op.value);
    }
    assert forall a | a in rs[n].answers :: a in rs[n].answers + rs[n].posted;
  }

  /**
    When all is done, exactly one answer was sent if authorizing or building the operation threw or the
    operation was not stopped before its second test, and none otherwise.
   */
  lemma OneAnswer(rs: seq<Request>, ss: seq<Step>, n: nat)
    requires IsRun(rs, ss) && n < |rs| && Quiescent(rs[n])
    ensures |rs[n].answers| == 1 <==> Refused(rs[n]) || exists k :: 0 <= k < n && PassesAt(rs[k], ss[k])
    ensures rs[n].op.Some? && |rs[n].answers| == 1 ==> rs[n].op.value.replies == [Data, Complete]
  {
    hide Do, CanDo, PassesAt;
    RunInv(rs, ss, n);
    PastExactly(rs, ss, n);
  }

  /** The handler a reply goes through is there, torn down or not. */
  lemma HandlerIsThere(rs: seq<Request>, ss: seq<Step>, n: nat)
    requires IsRun(rs, ss) && n < |ss| && ss[n].Work? && (ss[n].e.ReplyData? || ss[n].e.ReplyComplete?)
    ensures rs[n].op.Some? && rs[n].op.value.worker.full
  {
    hide Do;
    RunInv(rs, ss, n);
    Trace(rs[n].op.value);
  }

  /** A request that is not quiescent can go on by itself. */
  lemma NextStep(r: Request)
    requires ReqInv(r) && r.arrived && !Quiescent(r)
    ensures exists s: Step :: (s.Work? || s.RunPosted?) && CanDo(r, s)
  {
    assert r.posted != [] ==> CanDo(r, RunPosted);
    if r.op.Some? {
      assert r.op.value.worker.Queued? ==> CanDo(r, Work(Take(r.handlers), Null));
      assert r.op.value.worker.Copied? || r.op.value.worker.Resolved? ==> CanDo(r, Work(TestStopped, Null));
      assert r.op.value.worker.Resolving? ==> CanDo(r, Work(ResolutionDone, Null));
      assert r.op.value.worker.Passed? ==> CanDo(r, Work(ReplyData, Null));
      assert r.op.value.worker.DataSent? ==> CanDo(r, Work(ReplyComplete, Null));
      assert r.op.value.worker.CompleteSent? ==> CanDo(r, Work(AutoStop, Null));
    }
  }

  /** How many steps of the worker are left. */
  function StepsLeft(w: Worker): nat {
    match w
    case Queued => 7
    case Copied(_) => 6
    case Resolving(_) => 5
    case Resolved(_) => 4
    case Passed(_) => 3
    case DataSent(_) => 2
    case CompleteSent => 1
    case Finished => 0
  }

  /** Steps of the worker count twice, since one of them posts an answer. */
  function WorkLeft(r: Request): nat {
    |r.posted| + if r.op.Some? then 2 * StepsLeft(r.op.value.worker) else 0
  }

  /** Every step of the worker and every deferred answer bring the end closer, and the server never moves it away. */
  lemma EndNears(r: Request, s: Step)
    requires CanDo(r, s) && !s.Arrive?
    ensures WorkLeft(Do(r, s)) <= WorkLeft(r)
    ensures s.Work? || s.RunPosted? ==> WorkLeft(Do(r, s)) < WorkLeft(r)
  {
    hide Answered, Response;
    if s.Work? {
      DataIsAnswered(s.result);
    }
  }

  lemma NothingLeft(r: Request)
    requires ReqInv(r) && r.arrived
    ensures Quiescent(r) <==> WorkLeft(r) == 0
  {
  }

  /** The request is refused, replied to, past its second test, or not stopped, so that it will be. */
  predicate WillBeAnswered(r: Request) {
    Refused(r) || PastSecondTest(r) || (r.op.Some? && !r.op.value.stopped)
  }

  lemma StaysAnswered(r: Request, s: Step)
    requires ReqInv(r) && CanDo(r, s) && (s.Work? || s.RunPosted?) && WillBeAnswered(r)
    ensures WillBeAnswered(Do(r, s))
  {
    hide Answered, Response, ErrorStatus, ErrorPayload, CString;
  }

  lemma AnsweredAtTheEnd(r: Request)
    requires ReqInv(r) && Quiescent(r)
    ensures |r.answers| == (if WillBeAnswered(r) then 1 else 0)
  {
  }

  /**
    Left to the worker and the deferred tasks, every request is finished after at most fifteen steps, and
    with its answer unless it was stopped before its second test.
   */
  lemma {:induction false} AnswerComes(r: Request) returns (rs: seq<Request>, ss: seq<Step>)
    requires ReqInv(r) && r.arrived
    ensures |rs| == |ss| + 1 && rs[0] == r && forall i | 0 <= i < |ss| :: CanDo(rs[i], ss[i]) && rs[i + 1] == Do(rs[i], ss[i])
    ensures forall i | 0 <= i < |ss| :: ss[i].Work? || ss[i].RunPosted?
    ensures |ss| <= WorkLeft(r) <= 15 && Quiescent(rs[|ss|])
    ensures WillBeAnswered(r) ==> |rs[|ss|].answers| == 1 == rs[|ss|].dones
    decreases WorkLeft(r)
  {
    hide CanDo, Do, ReqInv, WorkLeft, Quiescent, WillBeAnswered;
    NothingLeft(r);
    LittleLeft(r);
    if Quiescent(r) {
      AnsweredAtTheEnd(r);
      AnswersAreDones(r);
      rs, ss := [r], [];
    } else {
      NextStep(r);
      var s: Step :| (s.Work? || s.RunPosted?) && CanDo(r, s);
      DoInv(r, s);
      EndNears(r, s);
      StaysArrived(r, s);
      if WillBeAnswered(r) {
        StaysAnswered(r, s);
      }
      var rs1, ss1 := AnswerComes(Do(r, s));
      rs, ss := [r] + rs1, [s] + ss1;
      assert forall i | 0 < i < |ss| :: ss[i] == ss1[i - 1] && rs[i] == rs1[i - 1] && rs[i + 1] == rs1[i];
    }
  }

  lemma LittleLeft(r: Request)
    requires ReqInv(r)
    ensures WorkLeft(r) <= 15
  {
  }

  lemma StaysArrived(r: Request, s: Step)
    requires CanDo(r, s) && r.arrived
    ensures Do(r, s).arrived
  {
    hide Answered, Response;
  }

  // ---------------------------------------------------------------- server and connection

  /** 401 for a refused token, 400 for any other error. */
  function ErrorAnswered(message: string): Answer {
    var statusCode := if "Token error: " < message then 401 else 400;
    Answer(statusCode, Map([Member("message", String(message)), Member("statusCode", Int(statusCode))]))
  }

  lemma ThrownIsAnswered(what: string)
    ensures Answered(Map(Response(GQL_CONNECTION_ERROR, HTTP_ID, ErrorPayload(what)))) == Some(ErrorAnswered(CString(what)))
  {
    hide Answered, Response, CString;
    ErrorAnswer(HTTP_ID, what);
  }

  /** 200 for a result with data, 400 for one without, 501 for what is no object. */
  lemma ResultIsAnswered(result: Value)
    ensures var a := Answered(Map(Response(GQL_DATA, HTTP_ID, result)));
      && a.Some? && a.value.body == (if result.Map? then result else Null)
      && a.value.statusCode == (if !result.Map? then 501 else if HasKey(result.members, "data") then 200 else 400)
    ensures Answered(Map(Response(GQL_COMPLETE, HTTP_ID, Null))) == None
  {
    hide CString, Response, Find;
    DataIsAnswered(result);
    CStringWhole(GQL_DATA);
    DifferentTypes();
    ResponseRead(GQL_DATA, HTTP_ID, result);
    StatusTable("data", if result.Map? then result else Null);
  }

  lemma UnlistedStopped(r: Request)
    requires ReqInv(r) && r.op.Some? && !r.listed
    ensures r.op.value.stopped
  {
  }

  /** The server's and the connection's fields that this request touches. */
  class HttpExchange {
    var arrived: bool
    var handlers: bool    // m_handlers is set up
    var connected: bool   // in the server's m_connections
    var listed: bool      // in the connection's m_operations
    var operation: Option<Regular>
    var outcome: Outcome
    var deferred: seq<Answer>
    var answers: seq<Answer>
    var dones: nat
    ghost var resolved: Value

    ghost function State(): Request
      reads this
    {
      Request(arrived, handlers, connected, listed, operation, outcome, resolved, deferred, answers, dones)
    }

    ghost predicate Valid()
      reads this
    {
      ReqInv(State())
    }

    constructor ()
      ensures Valid() && State() == NEW
    {
      arrived, handlers, connected, listed, operation, outcome := false, false, false, false, None, Started;
      deferred, answers, dones, resolved := [], [], 0, Null;
    }

    /** `onHttpReply`: the answer is sent from the main thread, later. */
    method Reply(response: Value)
      requires response.Map?
      modifies this`deferred
      ensures State() == Post(old(State()), response)
      ensures deferred == old(deferred) + (if Answered(response).Some? then [Answered(response).value] else [])
    {
      var answer := OnHttpReply(response);
      if answer.Some? {
        deferred := deferred + [answer.value];
      }
    }

    /** `outcome` is what authorizing and making the operation come to; whatever they throw is answered. */
    method OnHttp(outcome: Outcome)
      requires Valid() && !arrived
      modifies this
      ensures Valid() && State() == Do(old(State()), Arrive(outcome))
      ensures arrived && handlers && connected && answers == old(answers) && dones == old(dones)
      ensures outcome.Started? ==> listed && operation == Some(Regular(false, Queued, [])) && deferred == old(deferred)
      ensures outcome.Threw? ==>
        && listed == old(listed) && operation == old(operation)
        && deferred == old(deferred) + [ErrorAnswered(CString(outcome.what))]
    {
      hide ReqInv, Answered, Response, ErrorPayload, ErrorAnswered, CString;
      DoInv(State(), Arrive(outcome));
      arrived, handlers, connected := true, true, true;
      this.outcome := outcome;
      match outcome
      case Threw(what) =>
        var response := CreateErrorResponse(GQL_CONNECTION_ERROR, HTTP_ID, what);
        ThrownIsAnswered(what);
        Reply(response);
      case Started =>
        operation := Some(STARTED);
        listed := true;
    }

    /** A step of the worker; its replies go through its copy of the handler. */
    method WorkerDoes(e: Event, result: Value)
      requires Valid() && CanDo(State(), Work(e, result))
      modifies this
      ensures Valid() && State() == Do(old(State()), Work(e, result))
      ensures old(operation).Some? && operation == Some(Next(old(operation).value, e))
      ensures listed == old(listed) && handlers == old(handlers) && connected == old(connected)
      ensures answers == old(answers) && dones == old(dones)
      ensures !e.ReplyData? ==> deferred == old(deferred)
      ensures e.ReplyData? ==>
        && |deferred| == |old(deferred)| + 1 && old(deferred) <= deferred
        && deferred[|deferred| - 1].body == (if result.Map? then result else Null)
        && deferred[|deferred| - 1].statusCode == if !result.Map? then 501 else if HasKey(result.members, "data") then 200 else 400
    {
      hide ReqInv, Answered, Response, HasKey;
      ResultIsAnswered(result);
      DoInv(State(), Work(e, result));
      operation := Some(Next(operation.value, e));
      if e.ReplyData? {
        resolved := result;
        var response := CreateResponse(GQL_DATA, HTTP_ID, result);
        Reply(response);
      } else if e.ReplyComplete? {
        var response := CreateResponse(GQL_COMPLETE, HTTP_ID, Null);
        Reply(response);
      }
    }

    /** `GraphQLConnection::stop()` */
    method StopConnection()
      modifies this`listed, this`operation
      ensures State() == StopOperations(old(State())) && !listed
      ensures operation == if old(listed) && old(operation).Some? then Some(old(operation).value.(stopped := true)) else old(operation)
    {
      if listed && operation.Some? {
        operation := Some(operation.value.(stopped := true));
      }
      listed := false;
    }

    /** The deferred task of `onHttpReply`, `onConnectionDone` included. */
    method SendAnswer()
      requires Valid() && deferred != []
      modifies this
      ensures Valid() && State() == Do(old(State()), RunPosted)
      ensures answers == old(answers) + [old(deferred)[0]] && deferred == old(deferred)[1..]
      ensures dones == old(dones) + 1 == |answers| && !handlers && !connected && !listed
      ensures operation == if old(operation).Some? then Some(old(operation).value.(stopped := true)) else None
    {
      if operation.Some? && !listed {
        UnlistedStopped(State());
      }
      AnswersAreDones(State());
      hide ReqInv;
      DoInv(State(), RunPosted);
      answers := answers + [deferred[0]];
      deferred := deferred[1..];
      connected := false;
      dones := dones + 1;
      StopConnection();
      handlers := false;
    }

    /** The stop of all connections in `stopListening`. */
    method StopListening()
      requires Valid() && connected
      modifies this
      ensures Valid() && State() == Do(old(State()), ServerStop)
      ensures !listed && operation == if old(operation).Some? then Some(old(operation).value.(stopped := true)) else None
      ensures deferred == old(deferred) && answers == old(answers) && dones == old(dones)
      ensures handlers == old(handlers) && connected == old(connected)
    {
      if operation.Some? && !listed {
        UnlistedStopped(State());
      }
      hide ReqInv;
      DoInv(State(), ServerStop);
      StopConnection();
    }

    /** And its end, after the pool was joined. */
    method CloseConnections()
      requires Valid() && CanDo(State(), ServerClose)
      modifies this
      ensures Valid() && State() == Do(old(State()), ServerClose)
      ensures !connected && State() == old(State()).(connected := false)
    {
      hide ReqInv;
      DoInv(State(), ServerClose);
      connected := false;
    }
  }

  lemma AnswersAreDones(r: Request)
    requires ReqInv(r)
    ensures r.dones == |r.answers|
  {
  }
}
