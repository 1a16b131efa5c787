/** The HTTP session: reads a request, has it handled, writes one response, reads the next. A handler may reply at
    once, defer the response to a handle used from other threads, or take the connection over. Handlers of one session
    run one at a time on its strand. */
module HttpSession {
  import opened Outcomes
  import opened Runs

  datatype Response = Response(text: string, keepAlive: bool)

  /** What a handler did with a request: how many handles it took, whether it took the stream over, and the last reply
      it gave. */
  datatype Handling = Handling(reply: Option<Response>, defers: nat, detaches: bool, keepAlive: bool)

  datatype ReadOutcome = EndOfStream | ReadError | GotRequest(handling: Handling)

  /** `reading`, `writing`: the outstanding asynchronous operations, a write with its response's keep-alive flag;
      `posted`: responses posted to the strand; `answered`: responses whose write was started; `dropped`: posted
      responses discarded while attached. */
  datatype Session = Session(reading: bool, writing: Option<bool>, writeInProgress: bool, detached: bool,
                             posted: seq<Response>, answered: seq<Response>, dropped: nat)

  /** A handle for the response to request number `request`. */
  datatype Handle = Handle(request: nat, completed: bool)

  /** `received`: requests read so far; `due`: the first response given for each request. */
  datatype Server = Server(session: Session, handles: seq<Handle>, received: nat, due: map<nat, Response>)

  datatype Step = ReadDone(outcome: ReadOutcome) | Send(handle: nat, response: Response) | RunPosted | WriteDone(ok: bool)

  // ------------------------------------------------------------ the session's handlers

  const CONNECTED: Session := Session(true, None, false, false, [], [], 0)

  function WriteResponse(s: Session, response: Response): Session {
    s.(writeInProgress := true, writing := Some(response.keepAlive), answered := s.answered + [response])
  }

  function NoResponse(handling: Handling): Response {
    Response("Handler did not produce response", handling.keepAlive)
  }

  function Given(handling: Handling): Response {
    if handling.reply.Some? then handling.reply.value else NoResponse(handling)
  }

  function AfterRead(s: Session, outcome: ReadOutcome): Session {
    var s1 := s.(reading := false);
    if !outcome.GotRequest? then s1
    else
      var s2 := if outcome.handling.detaches then s1.(detached := true) else s1;
      if s2.detached || outcome.handling.defers > 0 then s2 else WriteResponse(s2, Given(outcome.handling))
  }

  function AfterWrite(s: Session, ok: bool): Session
    requires s.writing.Some?
  {
    s.(writing := None, writeInProgress := false, reading := s.reading || (ok && s.writing.value))
  }

  function DeliverPosted(s: Session): Session
    requires s.posted != []
  {
    var s1 := s.(posted := s.posted[1..]);
    if s1.detached then s1
    else if s1.writeInProgress then s1.(dropped := s1.dropped + 1)
    else WriteResponse(s1, s.posted[0])
  }

  // ------------------------------------------------------------ all threads together

  function NewHandles(request: nat, n: nat): (handles: seq<Handle>)
    ensures |handles| == n && forall i | 0 <= i < n :: handles[i] == Handle(request, false)
  {
    if n == 0 then [] else NewHandles(request, n - 1) + [Handle(request, false)]
  }

  /** `Send` comes from any thread, any number of times per handle. */
  function Next(m: Server, step: Step): Server {
    match step
    case ReadDone(outcome) =>
      if !m.session.reading then m
      else if !outcome.GotRequest? then m.(session := AfterRead(m.session, outcome))
      else
        var h := outcome.handling;
        Server(AfterRead(m.session, outcome), m.handles + NewHandles(m.received, h.defers), m.received + 1,
               if h.detaches || h.defers > 0 then m.due else m.due[m.received := Given(h)])
    case Send(i, response) =>
      if i >= |m.handles| || m.handles[i].completed then m
      else m.(handles := m.handles[i := m.handles[i].(completed := true)],
              session := m.session.(posted := m.session.posted + [response]), due := m.due[m.handles[i].request := response])
    case RunPosted => if m.session.posted == [] then m else m.(session := DeliverPosted(m.session))
    case WriteDone(ok) => if m.session.writing.None? then m else m.(session := AfterWrite(m.session, ok))
  }

  const START: Server := Server(CONNECTED, [], 0, map[])

  /** Every handler of the server defers at most once per request. */
  predicate OneHandle(m: Server, step: Step) {
    step.ReadDone? && step.outcome.GotRequest? ==> step.outcome.handling.defers <= 1
  }

  /** A handle has not been used yet: some worker still has to send. */
  predicate AwaitsWorker(m: Server) {
    m.handles != [] && !m.handles[|m.handles| - 1].completed
  }

  /** A request has been read and its response not been started. */
  predicate Owes(m: Server) {
    AwaitsWorker(m) || m.session.posted != []
  }

  /** The responses started are, in order, the first ones given for the requests. */
  ghost predicate AnsweredInOrder(m: Server) {
    forall i: nat | i < |m.session.answered| :: i in m.due && m.due[i] == m.session.answered[i]
  }

  /** The response whose write was started last asks for the connection to be kept. */
  predicate LastKeepsAlive(s: Session) {
    s.answered != [] ==> s.answered[|s.answered| - 1].keepAlive
  }

  /** Reading goes on only behind a response that keeps the connection; a write in progress is the last response's. */
  ghost predicate Continues(s: Session) {
    && (s.reading ==> LastKeepsAlive(s))
    && (s.writing.Some? ==> s.answered != [] && s.writing.value == s.answered[|s.answered| - 1].keepAlive)
  }

  ghost predicate Attached(m: Server) {
    && m.received == |m.session.answered| + (if Owes(m) then 1 else 0)
    && (m.session.reading ==> m.session.writing.None? && !Owes(m))
    && (m.session.writing.Some? ==> !Owes(m))
    && |m.session.posted| <= 1
    && (m.session.posted != [] ==>
          !AwaitsWorker(m) && m.received - 1 in m.due && m.due[m.received - 1] == m.session.posted[0])
  }

  ghost predicate Invariant(m: Server) {
    && m.session.dropped == 0
    && m.session.writeInProgress == m.session.writing.Some?
    && AnsweredInOrder(m)
    && Continues(m.session)
    && (forall i | 0 <= i < |m.handles| - 1 :: m.handles[i].completed)
    && (AwaitsWorker(m) ==> m.handles[|m.handles| - 1].request == m.received - 1)
    && (if m.session.detached then
          !m.session.reading && m.session.writing.None? && m.received == |m.session.answered| + 1
        else Attached(m))
  }

  lemma ReadKeepsAnswers(m: Server, outcome: ReadOutcome)
    requires Invariant(m) && m.session.reading
    ensures AnsweredInOrder(Next(m, ReadDone(outcome))) && Continues(Next(m, ReadDone(outcome)).session)
  {
  }

  lemma ReadKeepsHandles(m: Server, outcome: ReadOutcome)
    requires Invariant(m) && m.session.reading && OneHandle(m, ReadDone(outcome))
    ensures var e := Next(m, ReadDone(outcome));
            && (forall i | 0 <= i < |e.handles| - 1 :: e.handles[i].completed)
            && (AwaitsWorker(e) ==> e.handles[|e.handles| - 1].request == e.received - 1)
            && (AwaitsWorker(e) <==> outcome.GotRequest? && outcome.handling.defers > 0)
  {
  }

  lemma ReadKeepsInvariant(m: Server, outcome: ReadOutcome)
    requires Invariant(m) && OneHandle(m, ReadDone(outcome))
    ensures Invariant(Next(m, ReadDone(outcome)))
  {
    if m.session.reading {
      ReadKeepsAnswers(m, outcome);
      ReadKeepsHandles(m, outcome);
    }
  }

  lemma SendKeepsInvariant(m: Server, i: nat, response: Response)
    requires Invariant(m)
    ensures Invariant(Next(m, Send(i, response)))
  {
  }

  lemma StrandKeepsInvariant(m: Server, step: Step)
    requires Invariant(m) && (step == RunPosted || step.WriteDone?)
    ensures Invariant(Next(m, step))
  {
  }

  /** In every run in which no handler defers twice: the requests read are the responses started, plus one exactly while
      a response is owed or the stream was taken over; an attached session never reads, and never writes another
      response, while one is owed; the guard has dropped nothing; the i-th response is the first one given for the i-th
      request; a read is outstanding only behind a response that keeps the connection. */
  lemma ExactlyOnce(steps: seq<Step>)
    requires Allowed(Next, OneHandle, START, steps)
    ensures Invariant(Run(Next, START, steps))
  {
    forall m, step | Invariant(m) && OneHandle(m, step) ensures Invariant(Next(m, step)) {
      match step {
        case ReadDone(outcome) => ReadKeepsInvariant(m, outcome);
        case Send(i, response) => SendKeepsInvariant(m, i, response);
        case _ => StrandKeepsInvariant(m, step);
      }
    }
    RunKeeps(Next, OneHandle, m => Invariant(m), START, steps);
  }

  /** Once a handle has been used, in no later state does another send on it have any effect. */
  lemma DuplicateSendsDoNothing(m: Server, steps: seq<Step>, i: nat, first: Response, again: Response)
    requires i < |m.handles|
    ensures var e := Run(Next, Next(m, Send(i, first)), steps); Next(e, Send(i, again)) == e
  {
    var used := (e: Server) => i < |e.handles| && e.handles[i].completed;
    AllAllowed(Next, (e: Server, step: Step) => true, Next(m, Send(i, first)), steps);
    RunKeeps(Next, (e: Server, step: Step) => true, used, Next(m, Send(i, first)), steps);
  }

  /** The first deferred response of an attached session is written when the strand runs it, and no other one. */
  lemma DeferredResponseIsWritten(m: Server, i: nat, response: Response)
    requires Invariant(m) && !m.session.detached && i < |m.handles| && !m.handles[i].completed
    ensures var e := Next(Next(m, Send(i, response)), RunPosted);
            && e.session.answered == m.session.answered + [response] && |m.session.answered| == m.handles[i].request
            && e.session.writing == Some(response.keepAlive)
  {
  }

  /** One exchange: the reply, or the error response without one, is written, and after a successful write the session
      reads on exactly if that response keeps the connection. */
  lemma OneExchange(m: Server, handling: Handling, ok: bool)
    requires Invariant(m) && m.session.reading && handling.defers == 0 && !handling.detaches
    ensures var response := if handling.reply.Some? then handling.reply.value
                            else Response("Handler did not produce response", handling.keepAlive);
            var e := Run(Next, m, [ReadDone(GotRequest(handling)), WriteDone(ok)]);
            && e.session.answered == m.session.answered + [response] && e.received == m.received + 1
            && (e.session.reading <==> ok && response.keepAlive)
  {
    var steps := [ReadDone(GotRequest(handling)), WriteDone(ok)];
    assert steps[1..] == [WriteDone(ok)] && steps[1..][1..] == [];
    var m1 := Next(m, steps[0]);
    assert m1.session.writing == Some(Given(handling).keepAlive);
    assert Run(Next, m, steps) == Run(Next, m1, [WriteDone(ok)]) == Next(m1, WriteDone(ok));
  }

  /** Neither reading nor writing nor owing: the connection has ended. */
  predicate Ended(m: Server) {
    !m.session.detached && !m.session.reading && m.session.writing.None? && !Owes(m)
  }

  lemma {:induction false} EndedStays(m: Server, steps: seq<Step>)
    requires Invariant(m) && Ended(m)
    ensures Run(Next, m, steps) == m
    decreases |steps|
  {
    if steps != [] {
      assert Next(m, steps[0]) == m;
      EndedStays(m, steps[1..]);
    }
  }

  /** The read failed or found the end of the stream, the write failed, or it was of a response that does not keep the
      connection. */
  predicate EndsConnection(m: Server, step: Step) {
    || (step.ReadDone? && m.session.reading && !step.outcome.GotRequest?)
    || (step.WriteDone? && m.session.writing.Some?
        && (step.ok ==> m.session.answered != [] && !m.session.answered[|m.session.answered| - 1].keepAlive))
  }

  /** After a failed read, the end of the stream, a failed write or a response that does not keep the connection,
      nothing is read, written or answered in any run. */
  lemma NothingAfterEnd(m: Server, step: Step, steps: seq<Step>)
    requires Invariant(m) && EndsConnection(m, step)
    ensures var e := Run(Next, Next(m, step), steps);
            && !e.session.reading && e.session.writing.None?
            && e.session.answered == m.session.answered && e.received == m.received
  {
    assert Invariant(Next(m, step)) by {
      if step.ReadDone? {
        ReadKeepsInvariant(m, step.outcome);
      } else {
        StrandKeepsInvariant(m, step);
      }
    }
    EndedStays(Next(m, step), steps);
  }

  /** A request whose handler takes the stream over, whatever else it does, is counted and gets no response: from then on
      the session neither reads nor writes in any run, and what is posted late is left alone. */
  lemma TakenOverIsSilent(m: Server, handling: Handling, steps: seq<Step>)
    requires Invariant(m) && m.session.reading && handling.detaches
    ensures var e := Run(Next, Next(m, ReadDone(GotRequest(handling))), steps);
            && e.session.detached && !e.session.reading && e.session.writing.None?
            && e.session.answered == m.session.answered && e.received == m.received + 1
  {
    var silent := (e: Server) =>
        && e.session.detached && !e.session.reading && e.session.writing.None?
        && e.session.answered == m.session.answered && e.received == m.received + 1;
    var m1 := Next(m, ReadDone(GotRequest(handling)));
    AllAllowed(Next, (e: Server, step: Step) => true, m1, steps);
    RunKeeps(Next, (e: Server, step: Step) => true, silent, m1, steps);
  }

  /** Whenever a handler defers twice and does not take the stream over, the guard does not help: there is a run in which
      both responses are written for the one request, and the second while the next request is being read. */
  lemma TwoHandlesAnswerTwice(m: Server, handling: Handling, a: Response, b: Response)
    requires Invariant(m) && !m.session.detached && m.session.reading
    requires handling.defers >= 2 && !handling.detaches && a.keepAlive
    ensures var i := |m.handles|;
            var e := Run(Next, m, [ReadDone(GotRequest(handling)), Send(i, a), RunPosted, WriteDone(true), Send(i + 1, b),
                                   RunPosted]);
            && e.received == m.received + 1 && e.session.answered == m.session.answered + [a, b]
            && e.session.reading && e.session.writing.Some?
  {
    var i := |m.handles|;
    RunOfSix(Next, m, ReadDone(GotRequest(handling)), Send(i, a), RunPosted, WriteDone(true), Send(i + 1, b), RunPosted);
    var m1 := Next(m, ReadDone(GotRequest(handling)));
    assert m1.handles[i] == Handle(m.received, false) && m1.handles[i + 1] == Handle(m.received, false);
    var m2 := Next(m1, Send(i, a));
    assert m2.session.posted == [a] && !m2.handles[i + 1].completed;
    var m3 := Next(m2, RunPosted);
    var m4 := Next(m3, WriteDone(true));
    assert m4.session.posted == [] && m4.session.reading && m4.session.answered == m.session.answered + [a];
    var m5 := Next(m4, Send(i + 1, b));
    assert m5.session.posted == [b];
    assert m.session.answered + [a] + [b] == m.session.answered + [a, b];
  }

  // ------------------------------------------------------------ the objects

  class HttpConnection {
    var reading: bool
    var writing: Option<bool>
    var writeInProgress: bool
    var detached: bool
    var posted: seq<Response>
    var answered: seq<Response>
    var dropped: nat

    function Value(): Session
      reads this
    {
      Session(reading, writing, writeInProgress, detached, posted, answered, dropped)
    }

    constructor ()
      ensures Value() == CONNECTED
    {
      reading, writing, writeInProgress, detached := true, None, false, false;
      posted, answered, dropped := [], [], 0;
    }

    method SendResponse(response: Response)
      modifies this`posted
      ensures posted == old(posted) + [response]
    {
      posted := posted + [response];
    }

    /** The posted closure. */
    method RunSend()
      requires posted != []
      modifies this
      ensures Value() == DeliverPosted(old(Value()))
    {
      var response := posted[0];
      posted := posted[1..];
      if detached || writeInProgress {
        if !detached {
          dropped := dropped + 1;
        }
        return;
      }
      StartWrite(response);
    }

    method ReleaseStream()
      modifies this`detached
      ensures detached
    {
      detached := true;
    }

    method OnRead(outcome: ReadOutcome)
      modifies this
      ensures Value() == AfterRead(old(Value()), outcome)
    {
      reading := false;
      if outcome != EndOfStream && outcome != ReadError {
        var context := new RouteContext(this);
        context.Dispatch(outcome.handling);
        if detached || context.deferred {
          return;
        }
        if context.response == None {
          context.Reply(Response("Handler did not produce response", outcome.handling.keepAlive));
        }
        var response := context.TakeResponse();
        StartWrite(response);
      }
    }

    method StartWrite(response: Response)
      modifies this`writeInProgress, this`writing, this`answered
      ensures Value() == WriteResponse(old(Value()), response)
    {
      writeInProgress := true;
      writing := Some(response.keepAlive);
      answered := answered + [response];
    }

    method OnWrite(ok: bool)
      requires writing.Some?
      modifies this
      ensures Value() == AfterWrite(old(Value()), ok)
    {
      var keepAlive := writing.value;
      writing := None;
      writeInProgress := false;
      if !ok || !keepAlive {
        return;
      }
      reading := true;
    }
  }

  class RouteContext {
    const session: HttpConnection
    var response: Option<Response>
    var deferred: bool

    constructor (session: HttpConnection)
      ensures this.session == session && response == None && !deferred
    {
      this.session, response, deferred := session, None, false;
    }

    method Reply(r: Response)
      modifies this`response
      ensures response == Some(r)
    {
      response := Some(r);
    }

    method DeferResponse() returns (handle: AsyncResponseHandle)
      modifies this`deferred
      ensures deferred && fresh(handle) && handle.session == session && !handle.completed
    {
      deferred := true;
      handle := new AsyncResponseHandle(session);
    }

    method TakeResponse() returns (r: Response)
      requires response.Some?
      modifies this`response
      ensures r == old(response).value && response == None
    {
      r := response.value;
      response := None;
    }

    /** The handler: replies, defers and takes the stream over as it pleases. */
    method Dispatch(handling: Handling)
      modifies this, session`detached
      ensures response == handling.reply && deferred == (handling.defers > 0 || old(deferred))
      ensures session.detached == (handling.detaches || old(session.detached))
    {
      for i := 0 to handling.defers
        invariant deferred == (i > 0 || old(deferred))
        invariant session.detached == old(session.detached)
      {
        var _ := DeferResponse();
      }
      response := None;
      if handling.reply.Some? {
        Reply(handling.reply.value);
      }
      if handling.detaches {
        session.ReleaseStream();
      }
    }
  }

  class AsyncResponseHandle {
    const session: HttpConnection
    var completed: bool

    constructor (session: HttpConnection)
      ensures this.session == session && !completed
    {
      this.session, completed := session, false;
    }

    /** Only the first call posts. */
    method SendOnce(response: Response)
      modifies this, session`posted
      ensures completed && session.posted == old(session.posted) + if old(completed) then [] else [response]
    {
      var before := completed;
      completed := true;
      if before {
        return;
      }
      session.SendResponse(response);
    }

    /** What a worker runs: the work's response, or the error response if the work throws. */
    method RunWork(result: Option<Response>, keepAlive: bool)
      modifies this, session`posted
      ensures completed
      ensures session.posted == old(session.posted) +
                if old(completed) then []
                else [if result.Some? then result.value else Response("{\"error\":\"internal_error\"}", keepAlive)]
    {
      if result.Some? {
        SendOnce(result.value);
      } else {
        SendOnce(Response("{\"error\":\"internal_error\"}", keepAlive));
      }
    }
  }
}
