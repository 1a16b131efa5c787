/** Progress of the notification pipeline: what the run's own steps put in is on record, and from every reachable state an
    open session can still receive everything it is due. */
module NotificationProgress {
  import opened EventBus
  import opened EventStream
  import NotificationBridge
  import opened NotificationDelivery
  import opened NotificationPipeline
  import opened NotificationStream
  import opened Outcomes
  import opened Runs
  import opened SessionRegistry
  import SseOutbox

  // ------------------------------------------------------------ what the steps put in

  function Posts(steps: seq<Step>): seq<BusEvent> {
    if steps == [] then []
    else Posts(steps[..|steps| - 1]) + if steps[|steps| - 1].Post? then [steps[|steps| - 1].event] else []
  }

  lemma RunFromOneMore(s: State, steps: seq<Step>, step: Step, json: Json)
    ensures RunFrom(s, steps + [step], json) == Next(RunFrom(s, steps, json), step, json)
  {
    RunOneMore((s: State, step: Step) => Next(s, step, json), s, steps, step);
  }

  lemma RunFromConcat(s: State, a: seq<Step>, b: seq<Step>, json: Json)
    ensures RunFrom(s, a + b, json) == RunFrom(RunFrom(s, a, json), b, json)
  {
    RunConcat((s: State, step: Step) => Next(s, step, json), s, a, b);
  }

  /** The session is there, for the user of its registration. */
  ghost predicate RegisteredFor(steps: seq<Step>, s: State, id: nat) {
    id in s.sessions && exists i :: 0 <= i < |steps| && steps[i] == Register(id, s.sessions[id].user)
  }

  /** In every run the events posted are those of the `Post` steps, in their order; and the sessions are those of the
      `Register` steps, each for the user it was registered for. */
  lemma {:induction false} RunsRecordSteps(steps: seq<Step>, json: Json)
    ensures var s := RunFrom(START, steps, json);
            && s.posted == Posts(steps)
            && (forall id | id in s.sessions :: RegisteredFor(steps, s, id))
            && (forall i | 0 <= i < |steps| && steps[i].Register? :: steps[i].id in s.sessions)
    decreases |steps|
  {
    if steps != [] {
      var n := |steps| - 1;
      var before, last := steps[..n], steps[n];
      assert steps == before + [last];
      RunsRecordSteps(before, json);
      RunFromOneMore(START, before, last, json);
      var s := RunFrom(START, before, json);
      var s' := Next(s, last, json);
      StepRecords(s, last, json);
      forall id | id in s'.sessions ensures RegisteredFor(steps, s', id) {
        if id in s.sessions {
          assert RegisteredFor(before, s, id);
          var i :| 0 <= i < |before| && before[i] == Register(id, s.sessions[id].user);
          assert steps[i] == before[i];
        } else {
          assert steps[n] == last;
        }
      }
    }
  }

  lemma StepRecords(s: State, step: Step, json: Json)
    ensures var s' := Next(s, step, json);
            && s'.posted == s.posted + (if step.Post? then [step.event] else [])
            && (forall id | id in s.sessions ::
                  && id in s'.sessions && s'.sessions[id].user == s.sessions[id].user
                  && s'.sessions[id].since == s.sessions[id].since)
            && (forall id | id in s'.sessions && id !in s.sessions :: step == Register(id, s'.sessions[id].user))
            && (step.Register? ==> step.id in s'.sessions)
  {
  }

  // ------------------------------------------------------------ the worker can finish

  /** Nothing was posted, and the session is still open, for the same user from the same event on. */
  ghost predicate Carries(s: State, e: State, id: nat) {
    && e.posted == s.posted && id in s.sessions && id in e.sessions
    && e.sessions[id].user == s.sessions[id].user && e.sessions[id].since == s.sessions[id].since
    && (s.sessions[id].box.closed <==> e.sessions[id].box.closed)
  }

  lemma {:induction false} SetInOrder(ids: set<nat>) returns (order: seq<nat>)
    ensures forall x :: x in order <==> x in ids
    ensures forall i, j | 0 <= i < j < |order| :: order[i] != order[j]
    decreases |ids|
  {
    if ids == {} {
      order := [];
    } else {
      var x := SomeElement(ids);
      var rest := SetInOrder(ids - {x});
      order := [x] + rest;
      forall i, j | 0 <= i < j < |order| ensures order[i] != order[j] {
        if i == 0 {
          assert order[j] in rest;
        }
      }
    }
  }

  lemma CanCollect(r: Registry, audience: Audience) returns (order: seq<nat>)
    ensures IsCollected(r, audience, order)
  {
    var ids := set user, x | user in r && (audience == ToAll || audience == ToUser(user)) && x in r[user] :: x;
    order := SetInOrder(ids);
    forall x ensures x in order <==> exists user :: (audience == ToAll || audience == ToUser(user)) && Registered(r, user, x) {
      if x in order {
        var user :| user in r && (audience == ToAll || audience == ToUser(user)) && x in r[user];
        assert Registered(r, user, x);
      }
    }
  }

  function Rank(worker: Worker): nat {
    match worker
    case Idle => 0
    case Sending(_, _) => 1
    case Popped(_) => 2
  }

  function Targets(worker: Worker): nat {
    if worker.Sending? then |worker.targets| else 0
  }

  /** Less is left for the worker to do. */
  predicate Closer(s: State, e: State) {
    || |e.queue| < |s.queue|
    || (|e.queue| == |s.queue| && Rank(e.worker) < Rank(s.worker))
    || (|e.queue| == |s.queue| && Rank(e.worker) == Rank(s.worker) && Targets(e.worker) < Targets(s.worker))
  }

  ghost predicate CarriesAll(s: State, e: State) {
    forall id | id in s.sessions :: Carries(s, e, id)
  }

  lemma CollectMoves(s: State, json: Json) returns (step: Step)
    requires s.worker.Popped?
    ensures CarriesAll(s, Next(s, step, json)) && Closer(s, Next(s, step, json))
  {
    var order := CanCollect(s.registry, AudienceOf(s.worker.event));
    step := Collect(order);
  }

  lemma SendMoves(s: State, json: Json)
    requires WorkerHolds(s) && s.worker.Sending? && s.worker.targets != []
    ensures CarriesAll(s, Next(s, SendNext, json)) && Closer(s, Next(s, SendNext, json))
  {
    assert s.worker.targets[0] in s.worker.targets;
  }

  /** The worker's next step while it has anything to do. */
  lemma WorkerMoves(s: State, json: Json) returns (step: Step)
    requires WorkerHolds(s) && (s.queue != [] || s.worker != Idle)
    ensures CarriesAll(s, Next(s, step, json)) && Closer(s, Next(s, step, json))
  {
    match s.worker {
      case Idle => step := Pop;
      case Popped(_) => step := CollectMoves(s, json);
      case Sending(_, targets) =>
        if targets == [] {
          step := Finish;
        } else {
          step := SendNext;
          SendMoves(s, json);
        }
    }
  }

  /** The first step of the worker's run, then the rest. */
  lemma CarriedOn(s: State, step: Step, rest: seq<Step>, id: nat, json: Json)
    requires Carries(s, Next(s, step, json), id)
    requires Carries(Next(s, step, json), RunFrom(Next(s, step, json), rest, json), id)
    ensures RunFrom(s, [step] + rest, json) == RunFrom(Next(s, step, json), rest, json)
    ensures Carries(s, RunFrom(s, [step] + rest, json), id)
  {
    assert ([step] + rest)[1..] == rest;
  }

  lemma {:induction false} WorkerCanFinish(s: State, id: nat, json: Json) returns (steps: seq<Step>)
    requires Invariant(s, json) && id in s.sessions
    ensures var e := RunFrom(s, steps, json);
            Invariant(e, json) && Carries(s, e, id) && e.queue == [] && e.worker == Idle
    decreases |s.queue|, Rank(s.worker), Targets(s.worker), 1
  {
    if s.queue == [] && s.worker == Idle {
      steps := [];
    } else {
      var step := WorkerMoves(s, json);
      StepKeepsInvariant(s, step, json);
      steps := WorkerContinues(s, step, id, json);
    }
  }

  lemma {:induction false} WorkerContinues(s: State, step: Step, id: nat, json: Json) returns (steps: seq<Step>)
    requires Invariant(Next(s, step, json), json) && Carries(s, Next(s, step, json), id) && Closer(s, Next(s, step, json))
    ensures var e := RunFrom(s, steps, json);
            Invariant(e, json) && Carries(s, e, id) && e.queue == [] && e.worker == Idle
    decreases |s.queue|, Rank(s.worker), Targets(s.worker), 0
  {
    var rest := WorkerCanFinish(Next(s, step, json), id, json);
    CarriedOn(s, step, rest, id, json);
    steps := [step] + rest;
  }

  // ------------------------------------------------------------ an open session can drain

  /** The session's own steps, one after another. */
  function SessionRun(x: Session, steps: seq<Step>, json: Json): Session
    decreases |steps|
  {
    if steps == [] then x else SessionRun(SessionStep(x, steps[0], json), steps[1..], json)
  }

  predicate Local(steps: seq<Step>, id: nat) {
    forall step | step in steps :: IsLocal(step) && step.id == id
  }

  lemma {:induction false} LocalRun(s: State, id: nat, steps: seq<Step>, json: Json)
    requires id in s.sessions && Local(steps, id)
    ensures RunFrom(s, steps, json) == Update(s, id, SessionRun(s.sessions[id], steps, json))
    decreases |steps|
  {
    if steps == [] {
      assert s.sessions[id := s.sessions[id]] == s.sessions;
    } else {
      var x := SessionStep(s.sessions[id], steps[0], json);
      assert steps[0] in steps;
      LocalStepIsUpdate(s, steps[0], json);
      LocalRun(Update(s, id, x), id, steps[1..], json);
      assert s.sessions[id := x][id := SessionRun(x, steps[1..], json)] == s.sessions[id := SessionRun(x, steps[1..], json)];
    }
  }

  /** Open, with its books in order. */
  ghost predicate Alive(x: Session, json: Json) {
    BoxHolds(x, json) && WireHolds(x, json) && !x.box.closed
  }

  ghost predicate SameOwner(x: Session, x': Session) {
    x'.user == x.user && x'.since == x.since
  }

  lemma StartMoves(x: Session, id: nat, json: Json)
    requires Alive(x, json)
    ensures var x' := SessionStep(x, RunStart(id), json);
            Alive(x', json) && SameOwner(x, x') && x'.box.started && x'.mail == x.mail
  {
    assert SessionStep(x, RunStart(id), json) == SessionStep(x, RunStart(0), json);
    StartKeepsBox(x, json);
    StartKeepsWire(x, json);
    SseOutbox.OpenOutboxAccepts(x.box, "");
  }

  lemma HandlerMoves(x: Session, id: nat, json: Json)
    requires Alive(x, json) && x.box.started && x.mail != []
    ensures var x' := SessionStep(x, RunHandler(id), json);
            Alive(x', json) && SameOwner(x, x') && x'.box.started && x'.mail == x.mail[1..]
  {
    assert SessionStep(x, RunHandler(id), json) == HandleMail(x, json);
    MailKeepsBox(x, json);
    MailKeepsWire(x, json);
    SseOutbox.OpenOutboxAccepts(x.box, Text(x.mail[0], json));
  }

  /** The front payload goes out whole and its write completes. */
  function FlushSteps(x: Session, id: nat): seq<Step>
    requires x.box.queue != [] && x.partial <= |x.box.queue[0]|
  {
    [WriteBytes(id, |x.box.queue[0]| - x.partial), WriteEnds(id, true)]
  }

  lemma FlushMoves(x: Session, id: nat, json: Json)
    requires Alive(x, json) && x.box.started && x.box.queue != []
    ensures var x' := SessionStep(SessionStep(x, FlushSteps(x, id)[0], json), WriteEnds(id, true), json);
            && Alive(x', json) && SameOwner(x, x') && x'.box.started && x'.mail == x.mail
            && x'.box.queue == x.box.queue[1..]
  {
    var x1 := SessionStep(x, FlushSteps(x, id)[0], json);
    WriteKeepsBox(x, FlushSteps(x, id)[0], json);
    WriteKeepsWire(x, FlushSteps(x, id)[0], json);
    WriteKeepsBox(x1, WriteEnds(id, true), json);
    WriteKeepsWire(x1, WriteEnds(id, true), json);
    FlushedBox(x, id, json);
  }

  lemma FlushedBox(x: Session, id: nat, json: Json)
    requires SseOutbox.Invariant(x.box) && !x.box.closed && x.box.queue != [] && x.partial <= |x.box.queue[0]|
    ensures var x' := SessionStep(SessionStep(x, FlushSteps(x, id)[0], json), WriteEnds(id, true), json);
            && SameOwner(x, x') && x'.mail == x.mail && x'.box.queue == x.box.queue[1..] && !x'.box.closed
            && x'.box.started == x.box.started
  {
    assert SessionStep(x, FlushSteps(x, id)[0], json) == x.(partial := |x.box.queue[0]|);
  }

  lemma ReadMoves(x: Session, id: nat, json: Json)
    requires Alive(x, json) && x.box.started
    ensures var x' := SessionStep(x, ClientReads(id, |Written(x)| - x.read), json);
            && Alive(x', json) && SameOwner(x, x') && x'.box == x.box && x'.mail == x.mail
            && x'.read == |Written(x)| && Written(x') == Written(x)
  {
    var n := |Written(x)| - x.read;
    ReadKeepsWire(x, n, json);
    assert SessionStep(x, ClientReads(id, n), json) == ReadMore(x, n, json);
    SameBox(x, ReadMore(x, n, json), json);
  }

  /** The session has been started, has no mail or payload waiting, and its client has read all bytes. */
  predicate Quiet(x: Session) {
    x.mail == [] && x.box.started && !x.box.closed && x.box.queue == [] && x.read == |Written(x)|
  }

  /** One step of the session, then the rest. */
  lemma RunsOn(x: Session, step: Step, rest: seq<Step>, id: nat, json: Json)
    requires IsLocal(step) && step.id == id && Local(rest, id)
    ensures Local([step] + rest, id)
    ensures SessionRun(x, [step] + rest, json) == SessionRun(SessionStep(x, step, json), rest, json)
  {
    assert ([step] + rest)[1..] == rest;
  }

  lemma {:induction false} SessionCanDrain(x: Session, id: nat, json: Json) returns (steps: seq<Step>)
    requires Alive(x, json)
    ensures Local(steps, id)
    ensures var x' := SessionRun(x, steps, json); Quiet(x') && SameOwner(x, x')
    decreases !x.box.started, |x.mail|, |x.box.queue|
  {
    if !x.box.started {
      StartMoves(x, id, json);
      var rest := SessionCanDrain(SessionStep(x, RunStart(id), json), id, json);
      RunsOn(x, RunStart(id), rest, id, json);
      steps := [RunStart(id)] + rest;
    } else if x.mail != [] {
      HandlerMoves(x, id, json);
      var rest := SessionCanDrain(SessionStep(x, RunHandler(id), json), id, json);
      RunsOn(x, RunHandler(id), rest, id, json);
      steps := [RunHandler(id)] + rest;
    } else if x.box.queue != [] {
      var flush := FlushSteps(x, id)[0];
      FlushMoves(x, id, json);
      var x1 := SessionStep(x, flush, json);
      var rest := SessionCanDrain(SessionStep(x1, WriteEnds(id, true), json), id, json);
      RunsOn(x1, WriteEnds(id, true), rest, id, json);
      RunsOn(x, flush, [WriteEnds(id, true)] + rest, id, json);
      steps := [flush] + ([WriteEnds(id, true)] + rest);
    } else {
      var read := ClientReads(id, |Written(x)| - x.read);
      ReadMoves(x, id, json);
      RunsOn(x, read, [], id, json);
      steps := [read] + [];
    }
  }

  /** From every reachable state, for every open session: without any further post, there are steps after which its client
      has decoded exactly the events it is due. Nothing it is due is ever out of reach. */
  lemma DueCanArrive(steps: seq<Step>, id: nat, json: Json) returns (more: seq<Step>)
    requires RendersObjects(json)
    requires id in RunFrom(START, steps, json).sessions && !RunFrom(START, steps, json).sessions[id].box.closed
    ensures var s, e := RunFrom(START, steps, json), RunFrom(START, steps + more, json);
            && Carries(s, e, id) && s.sessions[id].since <= |s.posted|
            && Decoded(e, id) == Notes(Addressed(s.posted[s.sessions[id].since..], s.sessions[id].user), json)
  {
    var s := RunFrom(START, steps, json);
    RunsKeepInvariant(steps, json);
    var work := WorkerCanFinish(s, id, json);
    var s1 := RunFrom(s, work, json);
    var drain := SessionCanDrain(s1.sessions[id], id, json);
    LocalRun(s1, id, drain, json);
    more := work + drain;
    RunFromConcat(START, steps, more, json);
    RunFromConcat(s, work, drain, json);
    assert steps + more == steps + (work + drain);
    DrainedClientHasAll(steps + more, id, json);
  }

  // ------------------------------------------------------------ who learns of what

  lemma {:induction false} NotesHave(events: seq<BusEvent>, e: BusEvent, json: Json)
    requires e in events
    ensures Notification(Name(e), json.render(NotificationBridge.PayloadOf(e))) in Notes(events, json)
  {
    if e != events[0] {
      NotesHave(events[1..], e, json);
    }
  }

  /** Every open session that has drained, whoever its user is, has decoded each lock and unlock of a file not dispatched
      before its registration, under its name and with the file, the holder, the lease and the token in its payload. */
  lemma LocksReachEveryone(steps: seq<Step>, id: nat, json: Json, e: BusEvent)
    requires RendersObjects(json) && Drained(RunFrom(START, steps, json), id)
    requires var s := RunFrom(START, steps, json); s.sessions[id].since <= |s.posted| && e in s.posted[s.sessions[id].since..]
    ensures e.FileLocked? ==>
              Notification("file_locked",
                           json.render(map["type" := NotificationBridge.Text("file_locked"),
                                           "fileId" := NotificationBridge.Number(e.fileId),
                                           "lockedByUserId" := NotificationBridge.Number(e.lockedByUserId),
                                           "leaseUntil" := NotificationBridge.Number(e.leaseUntil),
                                           "lockToken" := NotificationBridge.Number(e.lockToken)]))
              in Decoded(RunFrom(START, steps, json), id)
    ensures e.FileUnlocked? ==>
              Notification("file_unlocked",
                           json.render(map["type" := NotificationBridge.Text("file_unlocked"),
                                           "fileId" := NotificationBridge.Number(e.fileId),
                                           "lockToken" := NotificationBridge.Number(e.lockToken)]))
              in Decoded(RunFrom(START, steps, json), id)
  {
    var s := RunFrom(START, steps, json);
    var x := s.sessions[id];
    DrainedClientHasAll(steps, id, json);
    if e.FileLocked? || e.FileUnlocked? {
      DueCount(s.posted[x.since..], x.user, e);
      assert e in multiset(s.posted[x.since..]) && e in multiset(Addressed(s.posted[x.since..], x.user));
      NotesHave(Addressed(s.posted[x.since..], x.user), e, json);
    }
  }

  /** A new session is open, registered and due what is dispatched from then on; it is greeted once; a close request closes
      it, and then it can be taken off the registry. */
  lemma SessionsComeAndGo(s: State, id: nat, user: int, json: Json)
    ensures id !in s.sessions ==>
              var e := Next(s, Register(id, user), json);
              && Registered(e.registry, user, id) && id in e.sessions
              && e.sessions[id].user == user && e.sessions[id].since == |s.log| && !e.sessions[id].box.closed
    ensures id in s.sessions && !s.sessions[id].greeted ==>
              var e := Next(s, Greet(id), json);
              && e.sessions[id].greeted && e.sessions[id].mail == s.sessions[id].mail + [Greeting(s.sessions[id].user)]
              && Text(Greeting(user), json)
                 == EventText("connected", json.render(map["userId" := NotificationBridge.Number(user)]))
              && Next(e, Greet(id), json) == e
    ensures id in s.sessions ==>
              var e := Next(Next(s, RequestClose(id), json), Unregister(id), json);
              id in e.sessions && e.sessions[id].box.closed && !Registered(e.registry, s.sessions[id].user, id)
  {
    AddRemove(s.registry, user, id, user, id);
    if id in s.sessions {
      var s1 := Next(s, RequestClose(id), json);
      AddRemove(s1.registry, s.sessions[id].user, id, s.sessions[id].user, id);
      if !s.sessions[id].greeted {
        var e := Next(s, Greet(id), json);
        assert e.sessions[id := e.sessions[id]] == e.sessions;
      }
    }
  }
}
