/** The outbox of one event-stream session: handlers that run one at a time on the session's strand. */
module SseOutbox {
  import opened EventStream
  import opened Runs

  const RESPONSE_HEADER: string :=
    "HTTP/1.1 200 OK\r\nContent-Type: text/event-stream\r\n" +
    "Cache-Control: no-cache\r\nConnection: close\r\nX-Accel-Buffering: no\r\n\r\n"

  /** `started`, `writing` and `closed` are the session's flags; `inFlight` counts the outstanding asynchronous
      writes, `completed` and `enqueued` are the payloads written and accepted so far, `closedCalls` the calls
      of the close callback. */
  datatype Outbox = Outbox(queue: seq<string>, started: bool, writing: bool, closed: bool, inFlight: nat,
                           completed: seq<string>, enqueued: seq<string>, closedCalls: nat)

  datatype Handler = DoStart | Send(payload: string) | WriteDone(ok: bool) | DoClose

  const FRESH: Outbox := Outbox([], false, false, false, 0, [], [], 0)

  function DoWrite(s: Outbox): Outbox {
    if s.closed || s.queue == [] then s.(writing := false) else s.(writing := true, inFlight := s.inFlight + 1)
  }

  function Enqueue(s: Outbox, payload: string): Outbox {
    var s1 := s.(queue := s.queue + [payload], enqueued := s.enqueued + [payload]);
    if s1.writing then s1 else DoWrite(s1)
  }

  function Close(s: Outbox): Outbox {
    if s.closed then s else s.(closed := true, closedCalls := s.closedCalls + 1)
  }

  function OnWrite(s: Outbox, ok: bool): Outbox
    requires s.inFlight > 0 && s.queue != []
  {
    var s1 := s.(inFlight := s.inFlight - 1);
    if !ok then Close(s1)
    else
      var s2 := s1.(queue := s1.queue[1..], completed := s1.completed + [s1.queue[0]]);
      if s2.queue == [] then s2.(writing := false) else DoWrite(s2)
  }

  /** One handler. A completion can only arrive while a write is outstanding. */
  function Handle(s: Outbox, step: Handler): Outbox {
    match step
    case DoStart =>
      if s.started || s.closed then s
      else Enqueue(Enqueue(s.(started := true), RESPONSE_HEADER), CommentText("connected"))
    case Send(payload) => if s.closed then s else Enqueue(s, payload)
    case WriteDone(ok) => if s.inFlight == 0 || s.queue == [] then s else OnWrite(s, ok)
    case DoClose => Close(s)
  }

  ghost predicate Invariant(s: Outbox) {
    && s.completed + s.queue == s.enqueued
    && s.inFlight <= 1
    && (s.inFlight == 1 ==> s.writing && s.queue != [])
    && (!s.closed ==> (s.writing <==> s.queue != []) && (s.writing <==> s.inFlight == 1))
    && s.closedCalls == (if s.closed then 1 else 0)
  }

  lemma StepKeepsInvariant(s: Outbox, step: Handler)
    requires Invariant(s)
    ensures Invariant(Handle(s, step))
  {
    if step.WriteDone? && s.inFlight > 0 && s.queue != [] && step.ok {
      assert s.completed + s.queue == s.completed + [s.queue[0]] + s.queue[1..];
    } else {
      var t := s.(started := true);
      EnqueueConserves(s, if step.Send? then step.payload else "");
      EnqueueConserves(t, RESPONSE_HEADER);
      EnqueueConserves(Enqueue(t, RESPONSE_HEADER), CommentText("connected"));
    }
  }

  lemma EnqueueConserves(s: Outbox, payload: string)
    requires s.completed + s.queue == s.enqueued
    ensures Enqueue(s, payload).completed + Enqueue(s, payload).queue == Enqueue(s, payload).enqueued
  {
    assert s.completed + (s.queue + [payload]) == s.completed + s.queue + [payload];
  }

  /** The payload of the outstanding write stays the queue's front until its completion is handled. */
  lemma FrontStaysInFlight(s: Outbox, step: Handler)
    requires Invariant(s) && s.inFlight == 1 && !step.WriteDone?
    ensures Handle(s, step).inFlight == 1 && Handle(s, step).queue != [] && Handle(s, step).queue[0] == s.queue[0]
  {
  }

  /** In every run: the completed payloads followed by the queue are the payloads enqueued; at most one write is
      outstanding, and it is of the queue's front; while open, a write is in progress if and only if the
      queue is not empty; the close callback has run exactly once if closed, else never. */
  lemma RunsConserve(steps: seq<Handler>)
    ensures Invariant(Run(Handle, FRESH, steps))
  {
    forall s, step | Invariant(s) ensures Invariant(Handle(s, step)) {
      StepKeepsInvariant(s, step);
    }
    AllAllowed(Handle, (s: Outbox, step: Handler) => true, FRESH, steps);
    RunKeeps(Handle, (s: Outbox, step: Handler) => true, s => Invariant(s), FRESH, steps);
  }

  /** After the close no write starts and nothing more is accepted; at most the write that was outstanding
      still completes. */
  lemma NothingStartsAfterClose(s: Outbox, steps: seq<Handler>)
    requires Invariant(s) && s.closed
    ensures var t := Run(Handle, s, steps);
            && t.closed && t.closedCalls == 1 && t.enqueued == s.enqueued && t.inFlight <= s.inFlight
            && |t.completed| + t.inFlight <= |s.completed| + s.inFlight && s.completed <= t.completed
  {
    var good := (t: Outbox) =>
        && Invariant(t) && t.closed && t.enqueued == s.enqueued && t.inFlight <= s.inFlight
        && |t.completed| + t.inFlight <= |s.completed| + s.inFlight && s.completed <= t.completed;
    forall t, step | good(t) ensures good(Handle(t, step)) {
      StepKeepsInvariant(t, step);
    }
    AllAllowed(Handle, (s: Outbox, step: Handler) => true, s, steps);
    RunKeeps(Handle, (s: Outbox, step: Handler) => true, good, s, steps);
  }

  function Successes(n: nat): seq<Handler> {
    seq(n, _ => WriteDone(true))
  }

  /** As long as the writes succeed an open session gets everything out: as many completions as there are payloads, and all
      that was enqueued is completed, in order. */
  lemma {:induction false} OpenOutboxDrains(s: Outbox)
    requires Invariant(s) && !s.closed
    ensures var t := Run(Handle, s, Successes(|s.queue|));
            t.completed == s.enqueued && t.queue == [] && t.enqueued == s.enqueued && !t.closed && t.started == s.started
    decreases |s.queue|
  {
    if s.queue != [] {
      var t, n := Handle(s, WriteDone(true)), |s.queue|;
      StepKeepsInvariant(s, WriteDone(true));
      assert Successes(n)[1..] == Successes(n - 1);
      OpenOutboxDrains(t);
    }
  }

  /** What an open session accepts: on the first start the header and the comment, and each payload sent; a failed write
      and a close end it, and a payload is not taken off the queue by a write that failed. */
  lemma OpenOutboxAccepts(s: Outbox, payload: string)
    requires Invariant(s) && !s.closed
    ensures Handle(s, Send(payload)).enqueued == s.enqueued + [payload] && !Handle(s, Send(payload)).closed
    ensures Handle(s, DoStart).started && !Handle(s, DoStart).closed
    ensures Handle(s, DoStart).enqueued
            == if s.started then s.enqueued else s.enqueued + [RESPONSE_HEADER, CommentText("connected")]
    ensures s.inFlight > 0 ==> Handle(s, WriteDone(false)).closed && Handle(s, WriteDone(false)).queue == s.queue
    ensures Handle(s, DoClose).closed && Handle(s, DoClose).queue == s.queue
  {
  }

  // ------------------------------------------------------------ the session object

  class SseSession {
    const userId: int
    const sessionId: nat
    var outbox: seq<string>
    var started: bool
    var writeInProgress: bool
    var closed: bool
    var inFlight: nat
    var completed: seq<string>
    var enqueued: seq<string>
    var closedCalls: nat

    function Value(): Outbox
      reads this
    {
      Outbox(outbox, started, writeInProgress, closed, inFlight, completed, enqueued, closedCalls)
    }

    constructor (userId: int, sessionId: nat)
      ensures Value() == FRESH && this.userId == userId && this.sessionId == sessionId
    {
      this.userId, this.sessionId := userId, sessionId;
      outbox, started, writeInProgress, closed := [], false, false, false;
      inFlight, completed, enqueued, closedCalls := 0, [], [], 0;
    }

    method HandleStart()
      modifies this
      ensures Value() == Handle(old(Value()), DoStart)
      ensures !old(started) && !old(closed) ==>
                enqueued == old(enqueued) +
                  ["HTTP/1.1 200 OK\r\nContent-Type: text/event-stream\r\n" +
                   "Cache-Control: no-cache\r\nConnection: close\r\nX-Accel-Buffering: no\r\n\r\n", CommentText("connected")]
    {
      if started || closed {
        return;
      }
      started := true;
      EnqueuePayload(RESPONSE_HEADER);
      var comment, _ := BuildComment("connected");
      EnqueuePayload(comment);
    }

    method HandleSendEvent(eventName: string, jsonData: string)
      modifies this
      ensures Value() == Handle(old(Value()), Send(EventText(eventName, jsonData)))
    {
      if closed {
        return;
      }
      var payload, _ := BuildEvent(eventName, jsonData);
      EnqueuePayload(payload);
    }

    method EnqueuePayload(payload: string)
      modifies this`outbox, this`enqueued, this`writeInProgress, this`inFlight
      ensures Value() == Enqueue(old(Value()), payload)
    {
      outbox := outbox + [payload];
      enqueued := enqueued + [payload];
      if !writeInProgress {
        StartWrite();
      }
    }

    method StartWrite()
      modifies this`writeInProgress, this`inFlight
      ensures Value() == DoWrite(old(Value()))
    {
      if closed || outbox == [] {
        writeInProgress := false;
        return;
      }
      writeInProgress := true;
      inFlight := inFlight + 1;
    }

    method HandleWritten(ok: bool)
      requires inFlight > 0 && outbox != []
      modifies this
      ensures Value() == OnWrite(old(Value()), ok)
    {
      inFlight := inFlight - 1;
      if !ok {
        HandleClose();
        return;
      }
      completed := completed + [outbox[0]];
      outbox := outbox[1..];
      if outbox == [] {
        writeInProgress := false;
        return;
      }
      StartWrite();
    }

    method HandleClose()
      modifies this`closed, this`closedCalls
      ensures Value() == Close(old(Value()))
    {
      if closed {
        return;
      }
      closed := true;
      closedCalls := closedCalls + 1;
    }
  }
}
