/** End to end: what a client has decoded is a prefix of the events addressed to it. */
module NotificationDelivery {
  import opened EventBus
  import opened EventStream
  import NotificationBridge
  import opened NotificationPipeline
  import opened NotificationStream
  import opened Runs
  import opened SessionRegistry
  import opened SseOutbox
  import opened StreamRoundTrip

  // ------------------------------------------------------------ invariant

  function Texts(mail: seq<Mail>, json: Json): seq<string> {
    if mail == [] then [] else [Text(mail[0], json)] + Texts(mail[1..], json)
  }

  /** The bus event the worker still has to hand to this session. */
  function Pending(worker: Worker, id: nat): seq<BusEvent> {
    if worker.Sending? && id in worker.targets then [worker.event] else []
  }

  /** The accepted events are a prefix of the addressed ones; while the session is open, accepted, waiting and
      pending ones are all of them. */
  ghost predicate Delivers(log: seq<BusEvent>, pending: seq<BusEvent>, x: Session) {
    && x.since <= |log|
    && BusEvents(x.accepted) <= Addressed(log[x.since..], x.user)
    && (!x.box.closed ==> BusEvents(x.accepted + x.mail) + pending == Addressed(log[x.since..], x.user))
  }

  /** The outbox was fed the header, the comment and one text per accepted handler. */
  ghost predicate BoxHolds(x: Session, json: Json) {
    && SseOutbox.Invariant(x.box)
    && x.box.enqueued == (if x.box.started then [RESPONSE_HEADER, CommentText("connected")] + Texts(x.accepted, json) else [])
    && (!x.box.started ==> x.accepted == [])
  }

  ghost predicate WireHolds(x: Session, json: Json) {
    && (if x.box.queue == [] then x.partial == 0 else x.partial <= |x.box.queue[0]|)
    && x.read <= |Written(x)|
    && x.parser == Feed(NEW_PARSER, Body(Written(x)[..x.read]), json.isObject)
  }

  ghost predicate SessionHolds(log: seq<BusEvent>, pending: seq<BusEvent>, x: Session, json: Json) {
    Delivers(log, pending, x) && BoxHolds(x, json) && WireHolds(x, json)
  }

  ghost predicate WorkerHolds(s: State) {
    && s.posted == s.log + (if s.worker.Popped? then [s.worker.event] else []) + s.queue
    && (s.worker.Sending? ==>
          && (forall i, j | 0 <= i < j < |s.worker.targets| :: s.worker.targets[i] != s.worker.targets[j])
          && (forall id | id in s.worker.targets :: id in s.sessions))
  }

  ghost predicate RegistryHolds(s: State) {
    && (forall user, id | Registered(s.registry, user, id) :: id in s.sessions && s.sessions[id].user == user)
    && (forall id | id in s.sessions && !s.sessions[id].box.closed :: Registered(s.registry, s.sessions[id].user, id))
  }

  ghost predicate Invariant(s: State, json: Json) {
    && WorkerHolds(s) && RegistryHolds(s)
    && forall id | id in s.sessions :: SessionHolds(s.log, Pending(s.worker, id), s.sessions[id], json)
  }

  // ------------------------------------------------------------ sequences

  lemma Assoc<T>(a: seq<T>, b: seq<T>, c: seq<T>)
    ensures (a + b) + c == a + (b + c)
  {
  }

  lemma {:induction false} BusEventsConcat(a: seq<Mail>, b: seq<Mail>)
    ensures BusEvents(a + b) == BusEvents(a) + BusEvents(b)
  {
    if a == [] {
      assert a + b == b;
    } else {
      assert (a + b)[1..] == a[1..] + b;
      BusEventsConcat(a[1..], b);
      Assoc(if a[0].BusMail? then [a[0].event] else [], BusEvents(a[1..]), BusEvents(b));
    }
  }

  lemma {:induction false} AddressedConcat(a: seq<BusEvent>, b: seq<BusEvent>, user: int)
    ensures Addressed(a + b, user) == Addressed(a, user) + Addressed(b, user)
  {
    if a == [] {
      assert a + b == b;
    } else {
      assert (a + b)[1..] == a[1..] + b;
      AddressedConcat(a[1..], b, user);
      Assoc(if AddressedTo(a[0], user) then [a[0]] else [], Addressed(a[1..], user), Addressed(b, user));
    }
  }

  lemma {:induction false} TextsPush(mail: seq<Mail>, m: Mail, json: Json)
    ensures Texts(mail + [m], json) == Texts(mail, json) + [Text(m, json)]
  {
    if mail == [] {
      assert ([m])[1..] == [];
    } else {
      assert (mail + [m])[1..] == mail[1..] + [m];
      TextsPush(mail[1..], m, json);
      Assoc([Text(mail[0], json)], Texts(mail[1..], json), [Text(m, json)]);
    }
  }

  lemma {:induction false} ConcatConcat(a: seq<string>, b: seq<string>)
    ensures Concat(a + b) == Concat(a) + Concat(b)
  {
    if a == [] {
      assert a + b == b;
    } else {
      assert (a + b)[1..] == a[1..] + b;
      ConcatConcat(a[1..], b);
      Assoc(a[0], Concat(a[1..]), Concat(b));
    }
  }

  /** The bytes on the wire are a prefix of what was enqueued. */
  lemma WrittenIsPrefix(x: Session)
    requires SseOutbox.Invariant(x.box)
    ensures Written(x) <= Concat(x.box.enqueued)
  {
    ConcatConcat(x.box.completed, x.box.queue);
    if x.box.queue != [] && x.partial <= |x.box.queue[0]| {
      assert x.box.queue[0][..x.partial] <= Concat(x.box.queue);
    }
  }

  // ------------------------------------------------------------ session steps

  /** The session's wire only grows. */
  ghost predicate WireGrows(x: Session, x': Session) {
    && Written(x) <= Written(x') && x'.read == x.read && x'.parser == x.parser
    && (if x'.box.queue == [] then x'.partial == 0 else x'.partial <= |x'.box.queue[0]|)
  }

  lemma WireGrowsKeeps(x: Session, x': Session, json: Json)
    requires WireHolds(x, json) && WireGrows(x, x')
    ensures WireHolds(x', json)
  {
    assert Written(x')[..x.read] == Written(x)[..x.read];
  }

  lemma StartKeepsBox(x: Session, json: Json)
    requires BoxHolds(x, json)
    ensures BoxHolds(SessionStep(x, RunStart(0), json), json)
  {
    SseOutbox.StepKeepsInvariant(x.box, DoStart);
    assert Texts([], json) == [];
  }

  lemma StartKeepsWire(x: Session, json: Json)
    requires WireHolds(x, json)
    ensures WireHolds(SessionStep(x, RunStart(0), json), json)
  {
    if !x.box.started && !x.box.closed {
      var x0 := x.(box := x.box.(started := true));
      var x1 := x.(box := Enqueue(x0.box, RESPONSE_HEADER));
      WireGrowsKeeps(x, SessionStep(x, RunStart(0), json), json);
    }
  }

  lemma StartKeepsDelivery(log: seq<BusEvent>, pending: seq<BusEvent>, x: Session, json: Json)
    requires Delivers(log, pending, x)
    ensures Delivers(log, pending, SessionStep(x, RunStart(0), json))
  {
    var x' := SessionStep(x, RunStart(0), json);
    assert x'.box.closed == x.box.closed;
  }

  lemma StartKeepsSession(log: seq<BusEvent>, pending: seq<BusEvent>, x: Session, step: Step, json: Json)
    requires SessionHolds(log, pending, x, json) && step.RunStart?
    ensures SessionHolds(log, pending, SessionStep(x, step, json), json)
  {
    assert SessionStep(x, step, json) == SessionStep(x, RunStart(0), json);
    StartKeepsDelivery(log, pending, x, json);
    StartKeepsBox(x, json);
    StartKeepsWire(x, json);
  }

  lemma MailKeepsDelivery(log: seq<BusEvent>, pending: seq<BusEvent>, x: Session, json: Json)
    requires Delivers(log, pending, x) && x.mail != []
    ensures Delivers(log, pending, HandleMail(x, json))
  {
    var x', m := HandleMail(x, json), x.mail[0];
    if !x.box.closed {
      assert x'.accepted + x'.mail == x.accepted + x.mail;
      BusEventsConcat(x.accepted + [m], x.mail[1..]);
    }
  }

  lemma MailKeepsBox(x: Session, json: Json)
    requires BoxHolds(x, json) && x.mail != [] && x.box.started
    ensures BoxHolds(HandleMail(x, json), json)
  {
    SseOutbox.StepKeepsInvariant(x.box, Send(Text(x.mail[0], json)));
    TextsPush(x.accepted, x.mail[0], json);
  }

  lemma MailKeepsWire(x: Session, json: Json)
    requires WireHolds(x, json) && x.mail != []
    ensures WireHolds(HandleMail(x, json), json)
  {
    if x.box.closed {
      assert Written(HandleMail(x, json)) == Written(x);
    } else {
      WireGrowsKeeps(x, HandleMail(x, json), json);
    }
  }

  lemma HandlerKeepsSession(log: seq<BusEvent>, pending: seq<BusEvent>, x: Session, step: Step, json: Json)
    requires SessionHolds(log, pending, x, json) && step.RunHandler?
    ensures SessionHolds(log, pending, SessionStep(x, step, json), json)
  {
    if x.mail != [] && x.box.started {
      assert SessionStep(x, step, json) == HandleMail(x, json);
      MailKeepsDelivery(log, pending, x, json);
      MailKeepsBox(x, json);
      MailKeepsWire(x, json);
    } else {
      assert SessionStep(x, step, json) == x;
    }
  }

  lemma ArrivalKeepsDelivery(log: seq<BusEvent>, pending: seq<BusEvent>, pending': seq<BusEvent>, x: Session, m: Mail)
    requires Delivers(log, pending, x) && pending == BusEvents([m]) + pending'
    ensures Delivers(log, pending', x.(mail := x.mail + [m]))
  {
    assert x.accepted + (x.mail + [m]) == x.accepted + x.mail + [m];
    BusEventsConcat(x.accepted + x.mail, [m]);
  }

  lemma SameBox(x: Session, x': Session, json: Json)
    requires BoxHolds(x, json) && x'.box == x.box && x'.accepted == x.accepted
    ensures BoxHolds(x', json)
  {
  }

  /** Putting a handler on the strand. */
  lemma MailArrives(log: seq<BusEvent>, pending: seq<BusEvent>, pending': seq<BusEvent>, x: Session, m: Mail, json: Json)
    requires SessionHolds(log, pending, x, json) && pending == BusEvents([m]) + pending'
    ensures SessionHolds(log, pending', x.(mail := x.mail + [m]), json)
  {
    var x' := x.(mail := x.mail + [m]);
    ArrivalKeepsDelivery(log, pending, pending', x, m);
    SameBox(x, x', json);
    SameWire(x, x', json);
  }

  lemma SameWire(x: Session, x': Session, json: Json)
    requires WireHolds(x, json) && x'.box == x.box && x'.partial == x.partial && x'.read == x.read && x'.parser == x.parser
    ensures WireHolds(x', json)
  {
    assert Written(x') == Written(x);
  }

  lemma GreetedHolds(log: seq<BusEvent>, pending: seq<BusEvent>, x: Session, json: Json)
    requires SessionHolds(log, pending, x, json)
    ensures SessionHolds(log, pending, x.(greeted := true), json)
  {
    SameBox(x, x.(greeted := true), json);
    SameWire(x, x.(greeted := true), json);
  }

  lemma GreetKeepsSession(log: seq<BusEvent>, pending: seq<BusEvent>, x: Session, step: Step, json: Json)
    requires SessionHolds(log, pending, x, json) && step.Greet?
    ensures SessionHolds(log, pending, SessionStep(x, step, json), json)
  {
    GreetedHolds(log, pending, x, json);
    GreetingIsNoEvent(x.user, pending);
    MailArrives(log, pending, pending, x.(greeted := true), Greeting(x.user), json);
    GreetAddsMail(x, step, json);
  }

  lemma GreetingIsNoEvent(user: int, pending: seq<BusEvent>)
    ensures BusEvents([Greeting(user)]) + pending == pending
  {
  }

  lemma GreetAddsMail(x: Session, step: Step, json: Json)
    requires step.Greet?
    ensures SessionStep(x, step, json)
            == if x.greeted then x else x.(greeted := true).(mail := x.mail + [Greeting(x.user)])
  {
  }

  lemma CompletionGrowsWire(x: Session, x': Session, ok: bool)
    requires SseOutbox.Invariant(x.box) && x.box.inFlight > 0 && x.box.queue != [] && (ok ==> x.partial == |x.box.queue[0]|)
    requires x.partial <= |x.box.queue[0]|
    requires x' == x.(box := SseOutbox.Handle(x.box, WriteDone(ok)), partial := if ok then 0 else x.partial)
    ensures WireGrows(x, x')
  {
    if ok {
      ConcatConcat(x.box.completed, [x.box.queue[0]]);
      assert Concat([x.box.queue[0]]) == x.box.queue[0];
      assert x.box.queue[0][..x.partial] == x.box.queue[0];
    }
  }

  lemma WriteKeepsWire(x: Session, step: Step, json: Json)
    requires WireHolds(x, json) && SseOutbox.Invariant(x.box) && (step.WriteBytes? || step.WriteEnds? || step.RequestClose?)
    ensures WireHolds(SessionStep(x, step, json), json)
  {
    var x' := SessionStep(x, step, json);
    if step.WriteEnds? && x' != x {
      CompletionGrowsWire(x, x', step.ok);
    }
    WireGrowsKeeps(x, x', json);
  }

  lemma WriteKeepsBox(x: Session, step: Step, json: Json)
    requires BoxHolds(x, json) && (step.WriteBytes? || step.WriteEnds? || step.RequestClose?)
    ensures BoxHolds(SessionStep(x, step, json), json)
  {
    if step.WriteEnds? {
      SseOutbox.StepKeepsInvariant(x.box, WriteDone(step.ok));
    }
    SseOutbox.StepKeepsInvariant(x.box, DoClose);
  }

  lemma WriteKeepsSession(log: seq<BusEvent>, pending: seq<BusEvent>, x: Session, step: Step, json: Json)
    requires SessionHolds(log, pending, x, json) && (step.WriteBytes? || step.WriteEnds? || step.RequestClose?)
    ensures SessionHolds(log, pending, SessionStep(x, step, json), json)
  {
    WriteKeepsBox(x, step, json);
    WriteKeepsWire(x, step, json);
    WriteKeepsMail(x, step, json);
    DeliveryFrame(log, pending, x, SessionStep(x, step, json));
  }

  /** The session kept its mail and was not reopened. */
  ghost predicate SameMail(x: Session, x': Session) {
    && x'.user == x.user && x'.since == x.since && x'.mail == x.mail && x'.accepted == x.accepted
    && (x.box.closed ==> x'.box.closed)
  }

  lemma WriteKeepsMail(x: Session, step: Step, json: Json)
    requires step.WriteBytes? || step.WriteEnds? || step.RequestClose?
    ensures SameMail(x, SessionStep(x, step, json))
  {
  }

  lemma DeliveryFrame(log: seq<BusEvent>, pending: seq<BusEvent>, x: Session, x': Session)
    requires Delivers(log, pending, x) && SameMail(x, x')
    ensures Delivers(log, pending, x')
  {
  }

  lemma BodyGrows(wire: string, now: nat, next: nat)
    requires now <= next <= |wire|
    ensures Body(wire[..now]) <= Body(wire[..next])
  {
  }

  lemma FeedMore(before: string, after: string, json: Json)
    requires before <= after
    ensures Feed(Feed(NEW_PARSER, before, json.isObject), after[|before|..], json.isObject)
            == Feed(NEW_PARSER, after, json.isObject)
  {
    assert after == before + after[|before|..];
    FeedConcat(NEW_PARSER, before, after[|before|..], json.isObject);
  }

  lemma ReadingFeeds(wire: string, now: nat, next: nat, json: Json)
    requires now <= next <= |wire| && Body(wire[..now]) <= Body(wire[..next])
    ensures Feed(Feed(NEW_PARSER, Body(wire[..now]), json.isObject), Body(wire[..next])[|Body(wire[..now])|..],
                 json.isObject)
            == Feed(NEW_PARSER, Body(wire[..next]), json.isObject)
  {
    FeedMore(Body(wire[..now]), Body(wire[..next]), json);
  }

  lemma ReadMoreParses(x: Session, wire: string, n: nat, json: Json)
    requires wire == Written(x) && x.read + n <= |wire|
    requires x.parser == Feed(NEW_PARSER, Body(wire[..x.read]), json.isObject)
    ensures ReadMore(x, n, json).parser == Feed(NEW_PARSER, Body(wire[..x.read + n]), json.isObject)
  {
    BodyGrows(wire, x.read, x.read + n);
    ReadingFeeds(wire, x.read, x.read + n, json);
  }

  lemma ReadKeepsWire(x: Session, n: nat, json: Json)
    requires WireHolds(x, json) && x.read + n <= |Written(x)|
    ensures WireHolds(ReadMore(x, n, json), json)
  {
    ReadMoreParses(x, Written(x), n, json);
  }

  lemma ReadKeepsSession(log: seq<BusEvent>, pending: seq<BusEvent>, x: Session, step: Step, json: Json)
    requires SessionHolds(log, pending, x, json) && step.ClientReads?
    ensures SessionHolds(log, pending, SessionStep(x, step, json), json)
  {
    if x.read + step.count <= |Written(x)| {
      assert SessionStep(x, step, json) == ReadMore(x, step.count, json);
      ReadKeepsWire(x, step.count, json);
      DeliveryFrame(log, pending, x, ReadMore(x, step.count, json));
    } else {
      assert SessionStep(x, step, json) == x;
    }
  }

  lemma SessionStepKeeps(log: seq<BusEvent>, pending: seq<BusEvent>, x: Session, step: Step, json: Json)
    requires SessionHolds(log, pending, x, json)
    ensures SessionHolds(log, pending, SessionStep(x, step, json), json)
  {
    match step {
      case Greet(_) => GreetKeepsSession(log, pending, x, step, json);
      case RunStart(_) => StartKeepsSession(log, pending, x, step, json);
      case RunHandler(_) => HandlerKeepsSession(log, pending, x, step, json);
      case WriteBytes(_, _) => WriteKeepsSession(log, pending, x, step, json);
      case WriteEnds(_, _) => WriteKeepsSession(log, pending, x, step, json);
      case RequestClose(_) => WriteKeepsSession(log, pending, x, step, json);
      case ClientReads(_, _) => ReadKeepsSession(log, pending, x, step, json);
      case _ => assert SessionStep(x, step, json) == x;
    }
  }

  // ------------------------------------------------------------ steps of the whole system

  /** A step of one session that leaves its user alone and does not reopen it. */
  lemma SessionStepKeepsRegistry(s: State, step: Step, id: nat, json: Json)
    requires RegistryHolds(s) && id in s.sessions
    ensures RegistryHolds(Update(s, id, SessionStep(s.sessions[id], step, json)))
  {
    SessionStepIdentity(s.sessions[id], step, json);
  }

  lemma SessionStepIdentity(x: Session, step: Step, json: Json)
    ensures SessionStep(x, step, json).user == x.user
    ensures x.box.closed ==> SessionStep(x, step, json).box.closed
  {
  }

  lemma UpdateKeepsWorker(s: State, id: nat, x': Session)
    requires WorkerHolds(s) && id in s.sessions
    ensures WorkerHolds(Update(s, id, x'))
  {
  }

  lemma UpdateKeepsOne(s: State, id: nat, x': Session, j: nat, json: Json)
    requires id in s.sessions && j in s.sessions
    requires SessionHolds(s.log, Pending(s.worker, id), x', json)
    requires SessionHolds(s.log, Pending(s.worker, j), s.sessions[j], json)
    ensures SessionHolds(s.log, Pending(s.worker, j), Update(s, id, x').sessions[j], json)
  {
    assert Update(s, id, x').sessions[j] == if j == id then x' else s.sessions[j];
  }

  lemma UpdateKeeps(s: State, id: nat, x': Session, json: Json)
    requires Invariant(s, json) && id in s.sessions
    requires SessionHolds(s.log, Pending(s.worker, id), x', json) && RegistryHolds(Update(s, id, x'))
    ensures Invariant(Update(s, id, x'), json)
  {
    UpdateKeepsWorker(s, id, x');
    forall j | j in Update(s, id, x').sessions
      ensures SessionHolds(s.log, Pending(s.worker, j), Update(s, id, x').sessions[j], json)
    {
      UpdateKeepsOne(s, id, x', j, json);
    }
  }

  predicate IsLocal(step: Step) {
    step.Greet? || step.RunStart? || step.RunHandler? || step.WriteBytes? || step.WriteEnds? || step.RequestClose?
    || step.ClientReads?
  }

  lemma LocalStepIsUpdate(s: State, step: Step, json: Json)
    requires IsLocal(step)
    ensures Next(s, step, json) ==
            if step.id in s.sessions then Update(s, step.id, SessionStep(s.sessions[step.id], step, json)) else s
  {
  }

  lemma LocalStepKeeps(s: State, step: Step, json: Json)
    requires Invariant(s, json) && IsLocal(step)
    ensures Invariant(Next(s, step, json), json)
  {
    LocalStepIsUpdate(s, step, json);
    if step.id in s.sessions {
      var x' := SessionStep(s.sessions[step.id], step, json);
      SessionStepKeeps(s.log, Pending(s.worker, step.id), s.sessions[step.id], step, json);
      SessionStepKeepsRegistry(s, step, step.id, json);
      UpdateKeeps(s, step.id, x', json);
    }
  }

  lemma BusStepKeepsWorker(s: State, step: Step, json: Json)
    requires WorkerHolds(s) && (step.Post? || step.Pop? || step.Finish?)
    ensures WorkerHolds(Next(s, step, json))
  {
    if step.Post? {
      Assoc(s.log + (if s.worker.Popped? then [s.worker.event] else []), s.queue, [step.event]);
    } else if step.Pop? && s.worker == Idle && s.queue != [] {
      assert s.queue == [s.queue[0]] + s.queue[1..];
      Assoc(s.log, [s.queue[0]], s.queue[1..]);
      assert s.log + [] == s.log;
    }
  }

  lemma BusStepFrame(s: State, step: Step, json: Json)
    requires step.Post? || step.Pop? || step.Finish?
    ensures var s' := Next(s, step, json);
            && s'.log == s.log && s'.sessions == s.sessions && s'.registry == s.registry
            && forall id :: Pending(s'.worker, id) == Pending(s.worker, id)
  {
  }

  lemma BusStepKeeps(s: State, step: Step, json: Json)
    requires Invariant(s, json) && (step.Post? || step.Pop? || step.Finish?)
    ensures Invariant(Next(s, step, json), json)
  {
    BusStepKeepsWorker(s, step, json);
    BusStepFrame(s, step, json);
    assert RegistryHolds(Next(s, step, json));
  }

  lemma CollectKeepsDelivery(log: seq<BusEvent>, e: BusEvent, pending': seq<BusEvent>, x: Session)
    requires Delivers(log, [], x)
    requires !x.box.closed ==> pending' == if AddressedTo(e, x.user) then [e] else []
    ensures Delivers(log + [e], pending', x)
  {
    assert (log + [e])[x.since..] == log[x.since..] + [e];
    AddressedConcat(log[x.since..], [e], x.user);
    assert Addressed([e], x.user) == if AddressedTo(e, x.user) then [e] else [];
  }

  /** Collecting hands the event to exactly the open sessions it is addressed to. */
  lemma CollectKeepsSession(log: seq<BusEvent>, e: BusEvent, pending': seq<BusEvent>, x: Session, json: Json)
    requires SessionHolds(log, [], x, json)
    requires !x.box.closed ==> pending' == if AddressedTo(e, x.user) then [e] else []
    ensures SessionHolds(log + [e], pending', x, json)
  {
    CollectKeepsDelivery(log, e, pending', x);
  }

  /** The state after the worker collected `order` for its event. */
  function Collected(s: State, order: seq<nat>): State
    requires s.worker.Popped?
  {
    s.(worker := Sending(s.worker.event, order), log := s.log + [s.worker.event])
  }

  lemma CollectKeepsOne(s: State, order: seq<nat>, id: nat, json: Json)
    requires Invariant(s, json) && s.worker.Popped? && IsCollected(s.registry, AudienceOf(s.worker.event), order)
    requires id in s.sessions
    ensures SessionHolds(Collected(s, order).log, Pending(Collected(s, order).worker, id), s.sessions[id], json)
  {
    if !s.sessions[id].box.closed {
      CollectedIffAddressed(s, order, id);
    }
    CollectKeepsSession(s.log, s.worker.event, Pending(Collected(s, order).worker, id), s.sessions[id], json);
  }

  lemma CollectKeepsWorker(s: State, order: seq<nat>)
    requires WorkerHolds(s) && RegistryHolds(s) && s.worker.Popped?
    requires IsCollected(s.registry, AudienceOf(s.worker.event), order)
    ensures WorkerHolds(Collected(s, order)) && RegistryHolds(Collected(s, order))
  {
  }

  lemma CollectKeeps(s: State, step: Step, json: Json)
    requires Invariant(s, json) && step.Collect?
    ensures Invariant(Next(s, step, json), json)
  {
    if s.worker.Popped? && IsCollected(s.registry, AudienceOf(s.worker.event), step.order) {
      var s' := Collected(s, step.order);
      CollectKeepsWorker(s, step.order);
      forall id | id in s'.sessions ensures SessionHolds(s'.log, Pending(s'.worker, id), s'.sessions[id], json) {
        CollectKeepsOne(s, step.order, id, json);
      }
    }
  }

  lemma CollectedIffAddressed(s: State, order: seq<nat>, id: nat)
    requires RegistryHolds(s) && s.worker.Popped? && IsCollected(s.registry, AudienceOf(s.worker.event), order)
    requires id in s.sessions && !s.sessions[id].box.closed
    ensures id in order <==> AddressedTo(s.worker.event, s.sessions[id].user)
  {
    assert Registered(s.registry, s.sessions[id].user, id);
  }

  /** The state after the worker handed its event to its first target. */
  function Sent(s: State): State
    requires s.worker.Sending? && s.worker.targets != [] && s.worker.targets[0] in s.sessions
  {
    var id, x := s.worker.targets[0], s.sessions[s.worker.targets[0]];
    s.(sessions := s.sessions[id := x.(mail := x.mail + [BusMail(s.worker.event)])],
       worker := Sending(s.worker.event, s.worker.targets[1..]))
  }

  lemma SendKeepsWorker(s: State)
    requires WorkerHolds(s) && RegistryHolds(s)
    requires s.worker.Sending? && s.worker.targets != [] && s.worker.targets[0] in s.sessions
    ensures WorkerHolds(Sent(s)) && RegistryHolds(Sent(s))
  {
    assert s.worker.targets == [s.worker.targets[0]] + s.worker.targets[1..];
  }

  lemma SendPending(s: State, id: nat)
    requires WorkerHolds(s) && s.worker.Sending? && s.worker.targets != [] && s.worker.targets[0] in s.sessions
    ensures Pending(Sent(s).worker, id) == if id == s.worker.targets[0] then [] else Pending(s.worker, id)
  {
    assert s.worker.targets == [s.worker.targets[0]] + s.worker.targets[1..];
  }

  lemma SendKeepsOne(s: State, id: nat, json: Json)
    requires WorkerHolds(s) && s.worker.Sending? && s.worker.targets != [] && s.worker.targets[0] in s.sessions
    requires id in s.sessions && SessionHolds(s.log, Pending(s.worker, id), s.sessions[id], json)
    ensures SessionHolds(s.log, Pending(Sent(s).worker, id), Sent(s).sessions[id], json)
  {
    SendPending(s, id);
    if id == s.worker.targets[0] {
      assert BusEvents([BusMail(s.worker.event)]) + [] == [s.worker.event];
      MailArrives(s.log, [s.worker.event], [], s.sessions[id], BusMail(s.worker.event), json);
    }
  }

  lemma SendKeeps(s: State, step: Step, json: Json)
    requires Invariant(s, json) && step.SendNext?
    ensures Invariant(Next(s, step, json), json)
  {
    if s.worker.Sending? && s.worker.targets != [] && s.worker.targets[0] in s.sessions {
      var s' := Sent(s);
      SendKeepsWorker(s);
      forall id | id in s'.sessions ensures SessionHolds(s'.log, Pending(s'.worker, id), s'.sessions[id], json) {
        SendKeepsOne(s, id, json);
      }
      assert Next(s, step, json) == s';
    }
  }

  lemma NewSessionHolds(log: seq<BusEvent>, user: int, json: Json)
    ensures SessionHolds(log, [], NewSession(user, |log|), json)
  {
  }

  lemma RegisterKeepsRegistry(s: State, user: int, id: nat)
    requires RegistryHolds(s) && id !in s.sessions
    ensures RegistryHolds(Update(s, id, NewSession(user, |s.log|)).(registry := Add(s.registry, user, id)))
  {
    forall u, x ensures Registered(Add(s.registry, user, id), u, x) <==>
                        Registered(s.registry, u, x) || (u == user && x == id)
    {
      AddRemove(s.registry, user, id, u, x);
    }
  }

  lemma RegisterKeeps(s: State, step: Step, json: Json)
    requires Invariant(s, json) && step.Register?
    ensures Invariant(Next(s, step, json), json)
  {
    if step.id !in s.sessions {
      RegisterKeepsRegistry(s, step.user, step.id);
      NewSessionHolds(s.log, step.user, json);
      assert Pending(s.worker, step.id) == [];
    }
  }

  lemma UnregisterKeeps(s: State, step: Step, json: Json)
    requires Invariant(s, json) && step.Unregister?
    ensures Invariant(Next(s, step, json), json)
  {
    if step.id in s.sessions {
      var mine := s.sessions[step.id].user;
      forall u, x ensures Registered(Remove(s.registry, mine, step.id), u, x)
                          <==> Registered(s.registry, u, x) && !(u == mine && x == step.id)
      {
        AddRemove(s.registry, mine, step.id, u, x);
      }
    }
  }

  lemma StepKeepsInvariant(s: State, step: Step, json: Json)
    requires Invariant(s, json)
    ensures Invariant(Next(s, step, json), json)
  {
    match step {
      case Post(_) => BusStepKeeps(s, step, json);
      case Pop => BusStepKeeps(s, step, json);
      case Finish => BusStepKeeps(s, step, json);
      case Collect(_) => CollectKeeps(s, step, json);
      case SendNext => SendKeeps(s, step, json);
      case Register(_, _) => RegisterKeeps(s, step, json);
      case Unregister(_) => UnregisterKeeps(s, step, json);
      case _ => LocalStepKeeps(s, step, json);
    }
  }

  // ------------------------------------------------------------ what the client decodes

  function Items(mail: seq<Mail>, json: Json): seq<Item> {
    if mail == [] then [] else [Event(MailName(mail[0]), Rendered(mail[0], json))] + Items(mail[1..], json)
  }

  lemma {:induction false} TextsPrintItems(mail: seq<Mail>, json: Json)
    ensures Concat(Texts(mail, json)) == PrintAll(Items(mail, json))
  {
    if mail != [] {
      TextsPrintItems(mail[1..], json);
    }
  }

  lemma {:induction false} ItemsEmittable(mail: seq<Mail>, json: Json)
    requires RendersObjects(json)
    ensures forall i | i in Items(mail, json) :: Emittable(i, json.isObject)
    ensures Events(Items(mail, json)) == MailNotes(mail, json)
  {
    if mail != [] {
      ItemsEmittable(mail[1..], json);
      NamesEmittable(mail[0]);
    }
  }

  lemma NamesEmittable(m: Mail)
    ensures MailName(m) != "" && SingleLine(MailName(m)) && Trim(MailName(m)) == MailName(m)
    ensures m.BusMail? ==> MailName(m) != "connected"
  {
    var name := MailName(m);
    assert !IsSpace(name[0]) && !IsSpace(name[|name| - 1]);
  }

  /** The stream of a started session, behind the response header, prints the comment and the accepted mail. */
  lemma StreamPrintsMail(x: Session, json: Json)
    requires BoxHolds(x, json) && x.box.started
    ensures Body(Concat(x.box.enqueued)) == PrintAll([Comment("connected")] + Items(x.accepted, json))
  {
    var texts := Texts(x.accepted, json);
    assert x.box.enqueued == [RESPONSE_HEADER] + ([CommentText("connected")] + texts);
    CommentAndTextsPrint(x.accepted, json);
    BodyBehindHeader(Concat([CommentText("connected")] + texts));
  }

  lemma CommentAndTextsPrint(mail: seq<Mail>, json: Json)
    ensures Concat([CommentText("connected")] + Texts(mail, json)) == PrintAll([Comment("connected")] + Items(mail, json))
  {
    TextsPrintItems(mail, json);
    PrintFirst(Comment("connected"), Items(mail, json));
  }

  lemma PrintFirst(first: Item, rest: seq<Item>)
    ensures PrintAll([first] + rest) == Print(first) + PrintAll(rest)
  {
    assert ([first] + rest)[1..] == rest;
  }

  lemma BodyBehindHeader(body: string)
    ensures Body(RESPONSE_HEADER + body) == body
  {
  }

  lemma StreamDeliversMail(x: Session, json: Json)
    requires BoxHolds(x, json) && RendersObjects(json)
    ensures Feed(NEW_PARSER, Body(Concat(x.box.enqueued)), json.isObject).events == MailNotes(x.accepted, json)
  {
    if x.box.started {
      var items := [Comment("connected")] + Items(x.accepted, json);
      StreamPrintsMail(x, json);
      ItemsEmittable(x.accepted, json);
      ParsingUndoesPrinting(items, json.isObject);
      assert items[1..] == Items(x.accepted, json);
    }
  }

  lemma {:induction false} WithoutGreetingConcat(a: seq<Notification>, b: seq<Notification>)
    ensures WithoutGreeting(a + b) == WithoutGreeting(a) + WithoutGreeting(b)
  {
    if a == [] {
      assert a + b == b;
    } else {
      assert (a + b)[1..] == a[1..] + b;
      WithoutGreetingConcat(a[1..], b);
      Assoc(if a[0].name == "connected" then [] else [a[0]], WithoutGreeting(a[1..]), WithoutGreeting(b));
    }
  }

  lemma {:induction false} MailNotesAreBusNotes(mail: seq<Mail>, json: Json)
    ensures WithoutGreeting(MailNotes(mail, json)) == Notes(BusEvents(mail), json)
  {
    if mail != [] {
      NamesEmittable(mail[0]);
      MailNotesAreBusNotes(mail[1..], json);
      assert MailNotes(mail, json)[1..] == MailNotes(mail[1..], json);
      if mail[0].BusMail? {
        assert mail[0] == BusMail(mail[0].event);
        assert BusEvents(mail)[1..] == BusEvents(mail[1..]);
      } else {
        assert BusEvents(mail) == BusEvents(mail[1..]);
      }
    }
  }

  lemma {:induction false} NotesConcat(a: seq<BusEvent>, b: seq<BusEvent>, json: Json)
    ensures Notes(a + b, json) == Notes(a, json) + Notes(b, json)
  {
    if a == [] {
      assert a + b == b;
    } else {
      assert (a + b)[1..] == a[1..] + b;
      NotesConcat(a[1..], b, json);
      Assoc([Notification(Name(a[0]), json.render(NotificationBridge.PayloadOf(a[0])))], Notes(a[1..], json), Notes(b, json));
    }
  }

  /** The client has decoded a prefix of the accepted mail's notifications. */
  lemma DecodedIsPrefixOfAccepted(x: Session, json: Json)
    requires BoxHolds(x, json) && WireHolds(x, json) && RendersObjects(json)
    ensures x.parser.events <= MailNotes(x.accepted, json)
  {
    WrittenIsPrefix(x);
    var all := Concat(x.box.enqueued);
    assert Written(x)[..x.read] == all[..x.read];
    BodyGrows(all, x.read, |all|);
    assert all[..|all|] == all;
    PrefixDeliversPrefix(NEW_PARSER, Body(all[..x.read]), Body(all), json.isObject);
    StreamDeliversMail(x, json);
  }

  lemma PrefixWithoutGreeting(a: seq<Notification>, b: seq<Notification>)
    requires a <= b
    ensures WithoutGreeting(a) <= WithoutGreeting(b)
  {
    assert b == a + b[|a|..];
    WithoutGreetingConcat(a, b[|a|..]);
  }

  lemma PrefixNotes(a: seq<BusEvent>, b: seq<BusEvent>, json: Json)
    requires a <= b
    ensures Notes(a, json) <= Notes(b, json)
  {
    assert b == a + b[|a|..];
    NotesConcat(a, b[|a|..], json);
  }

  lemma PrefixAddressed(a: seq<BusEvent>, b: seq<BusEvent>, since: nat, user: int)
    requires a <= b && since <= |a|
    ensures Addressed(a[since..], user) <= Addressed(b[since..], user)
  {
    assert b[since..] == a[since..] + b[|a|..];
    AddressedConcat(a[since..], b[|a|..], user);
  }

  /** What the client of session `id` decoded, the greeting aside. */
  function Decoded(s: State, id: nat): seq<Notification>
    requires id in s.sessions
  {
    WithoutGreeting(s.sessions[id].parser.events)
  }

  /** The events it is due: those addressed to its user among the posted ones that had not been dispatched when it was
      registered. */
  function DueEvents(s: State, id: nat): seq<BusEvent>
    requires id in s.sessions && s.sessions[id].since <= |s.posted|
  {
    Addressed(s.posted[s.sessions[id].since..], s.sessions[id].user)
  }

  /** Whom an event is for: everybody learns of locks and unlocks, the creator of a new file, the user assigned to a
      group. */
  lemma AddressedIff(e: BusEvent, user: int)
    ensures AddressedTo(e, user) <==>
              e.FileLocked? || e.FileUnlocked? || (e.FileCreated? && e.createdByUserId == user)
              || (e.GroupAssigned? && e.userId == user)
  {
  }

  lemma {:induction false} AddressedCount(events: seq<BusEvent>, user: int, e: BusEvent)
    ensures multiset(Addressed(events, user))[e] == if AddressedTo(e, user) then multiset(events)[e] else 0
  {
    if events != [] {
      AddressedCount(events[1..], user, e);
      assert events == [events[0]] + events[1..];
    }
  }

  /** So this is how often an event is due. */
  lemma DueCount(events: seq<BusEvent>, user: int, e: BusEvent)
    ensures multiset(Addressed(events, user))[e]
            == if e.FileLocked? || e.FileUnlocked? || (e.FileCreated? && e.createdByUserId == user)
                  || (e.GroupAssigned? && e.userId == user)
               then multiset(events)[e] else 0
  {
    AddressedCount(events, user, e);
    AddressedIff(e, user);
  }

  function Due(s: State, id: nat, json: Json): seq<Notification>
    requires id in s.sessions && s.sessions[id].since <= |s.posted|
  {
    Notes(DueEvents(s, id), json)
  }

  lemma DecodedIsPrefixOfDue(s: State, id: nat, json: Json)
    requires Invariant(s, json) && RendersObjects(json) && id in s.sessions
    ensures s.sessions[id].since <= |s.posted| && Decoded(s, id) <= Due(s, id, json)
  {
    var x := s.sessions[id];
    assert s.log <= s.posted;
    DecodedIsPrefixOfAccepted(x, json);
    PrefixWithoutGreeting(x.parser.events, MailNotes(x.accepted, json));
    MailNotesAreBusNotes(x.accepted, json);
    PrefixNotes(BusEvents(x.accepted), Addressed(s.log[x.since..], x.user), json);
    PrefixAddressed(s.log, s.posted, x.since, x.user);
    PrefixNotes(Addressed(s.log[x.since..], x.user), Addressed(s.posted[x.since..], x.user), json);
  }

  ghost function RunFrom(s: State, steps: seq<Step>, json: Json): State {
    Run((s: State, step: Step) => Next(s, step, json), s, steps)
  }

  lemma RunsKeepInvariant(steps: seq<Step>, json: Json)
    ensures Invariant(RunFrom(NotificationPipeline.START, steps, json), json)
  {
    var next := (s: State, step: Step) => Next(s, step, json);
    forall s, step | Invariant(s, json) ensures Invariant(next(s, step), json) {
      StepKeepsInvariant(s, step, json);
    }
    AllAllowed(next, (s: State, step: Step) => true, NotificationPipeline.START, steps);
    RunKeeps(next, (s: State, step: Step) => true, s => Invariant(s, json), NotificationPipeline.START, steps);
  }

  /** In every run, whatever the interleaving, the write completions and the client's read sizes: the bus events
      a client has decoded are a prefix of those not dispatched before its registration and addressed to its user,
      in post order, each once. */
  lemma ClientsDecodePrefixes(steps: seq<Step>, id: nat, json: Json)
    requires RendersObjects(json) && id in RunFrom(NotificationPipeline.START, steps, json).sessions
    ensures var s := RunFrom(NotificationPipeline.START, steps, json);
            s.sessions[id].since <= |s.posted| && Decoded(s, id) <= Due(s, id, json)
  {
    RunsKeepInvariant(steps, json);
    DecodedIsPrefixOfDue(RunFrom(NotificationPipeline.START, steps, json), id, json);
  }

  /** Notifications determine the events they were made from. */
  lemma {:induction false} NotesDetermineEvents(a: seq<BusEvent>, b: seq<BusEvent>, json: Json)
    requires Faithful(json) && Notes(a, json) == Notes(b, json)
    ensures a == b
    decreases |a|
  {
    NotesLength(a, json);
    NotesLength(b, json);
    if a != [] {
      var m, n := Notes(a, json), Notes(b, json);
      assert m[0].payload == n[0].payload && m[1..] == n[1..];
      NotificationBridge.PayloadDeterminesEvent(a[0], b[0]);
      NotesDetermineEvents(a[1..], b[1..], json);
      assert a == [a[0]] + a[1..] && b == [b[0]] + b[1..];
    }
  }

  lemma {:induction false} NotesLength(events: seq<BusEvent>, json: Json)
    ensures |Notes(events, json)| == |events|
  {
    if events != [] {
      NotesLength(events[1..], json);
    }
  }

  lemma {:induction false} NotesPrefix(events: seq<BusEvent>, k: nat, json: Json)
    requires k <= |events|
    ensures |Notes(events, json)| == |events| && Notes(events[..k], json) == Notes(events, json)[..k]
    decreases k
  {
    NotesLength(events, json);
    if k > 0 {
      NotesPrefix(events[1..], k - 1, json);
      assert events[..k][1..] == events[1..][..k - 1];
    }
  }

  /** In every run, if different objects serialise differently: what a client has decoded stands for exactly one sequence
      of bus events, and that is a prefix of the events it is due. */
  lemma ClientsKnowEvents(steps: seq<Step>, id: nat, json: Json) returns (known: seq<BusEvent>)
    requires RendersObjects(json) && Faithful(json)
    requires id in RunFrom(NotificationPipeline.START, steps, json).sessions
    ensures var s := RunFrom(NotificationPipeline.START, steps, json);
            && s.sessions[id].since <= |s.posted| && known <= DueEvents(s, id)
            && (forall events :: Decoded(s, id) == Notes(events, json) <==> events == known)
  {
    var s := RunFrom(NotificationPipeline.START, steps, json);
    ClientsDecodePrefixes(steps, id, json);
    var due, k := DueEvents(s, id), |Decoded(s, id)|;
    NotesLength(due, json);
    NotesPrefix(due, k, json);
    known := due[..k];
    forall events | Decoded(s, id) == Notes(events, json) ensures events == known {
      NotesDetermineEvents(events, known, json);
    }
  }

  /** Nothing is left on the way to this session. */
  ghost predicate Drained(s: State, id: nat) {
    && id in s.sessions && s.queue == [] && s.worker == Idle
    && var x := s.sessions[id];
    && x.mail == [] && x.box.started && !x.box.closed && x.box.queue == [] && x.read == |Written(x)|
  }

  lemma DrainedSessionDecodesAccepted(x: Session, json: Json)
    requires BoxHolds(x, json) && WireHolds(x, json) && RendersObjects(json)
    requires x.box.queue == [] && x.read == |Written(x)|
    ensures x.parser.events == MailNotes(x.accepted, json)
  {
    assert x.box.completed + x.box.queue == x.box.completed;
    assert Written(x)[..x.read] == Written(x) == Concat(x.box.enqueued);
    StreamDeliversMail(x, json);
  }

  lemma EmptyMailboxAcceptedAll(log: seq<BusEvent>, x: Session)
    requires Delivers(log, [], x) && !x.box.closed && x.mail == []
    ensures BusEvents(x.accepted) == Addressed(log[x.since..], x.user)
  {
    assert x.accepted + x.mail == x.accepted;
  }

  lemma DrainedHasAll(s: State, id: nat, json: Json)
    requires Invariant(s, json) && RendersObjects(json) && Drained(s, id)
    ensures s.sessions[id].since <= |s.posted| && Decoded(s, id) == Due(s, id, json)
  {
    var x := s.sessions[id];
    assert Pending(s.worker, id) == [] && SessionHolds(s.log, [], x, json);
    assert s.posted == s.log;
    EmptyMailboxAcceptedAll(s.log, x);
    DrainedSessionDecodesAccepted(x, json);
    MailNotesAreBusNotes(x.accepted, json);
  }

  /** And nothing is lost: once an open session has drained, its client has decoded everything it is due. */
  lemma DrainedClientHasAll(steps: seq<Step>, id: nat, json: Json)
    requires RendersObjects(json) && Drained(RunFrom(NotificationPipeline.START, steps, json), id)
    ensures var s := RunFrom(NotificationPipeline.START, steps, json);
            s.sessions[id].since <= |s.posted| && Decoded(s, id) == Due(s, id, json)
  {
    RunsKeepInvariant(steps, json);
    DrainedHasAll(RunFrom(NotificationPipeline.START, steps, json), id, json);
  }
}
