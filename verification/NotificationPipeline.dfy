/** From `post` on the event bus to the callback of the client: bus queue, worker, registry, strand handlers,
    outbox, socket, HTTP body, parser. Each step is one atomic action of one thread or strand. */
module NotificationPipeline {
  import opened EventBus
  import opened EventStream
  import NotificationBridge
  import opened NotificationStream
  import opened Runs
  import opened SessionRegistry
  import opened SseOutbox
  import opened StreamRoundTrip

  /** A `sendEvent` handler waiting on a session's strand: a bus event, or the controller's greeting. */
  datatype Mail = BusMail(event: BusEvent) | Greeting(userId: int)

  /** What the JSON library provides: the serialiser, and the client's object test. */
  datatype Json = Json(render: NotificationBridge.Payload -> string, isObject: string -> bool)

  /** `since`: events dispatched before the session was registered. `accepted`: the handlers that enqueued.
      `partial`: bytes of the queue's front already handed to the socket. `read`: bytes the client has read. */
  datatype Session = Session(user: int, since: nat, mail: seq<Mail>, accepted: seq<Mail>, greeted: bool, box: Outbox,
                             partial: nat, read: nat, parser: Parser)

  datatype Worker = Idle | Popped(event: BusEvent) | Sending(event: BusEvent, targets: seq<nat>)

  /** `log`: the events dispatched so far; `posted`: those posted so far. */
  datatype State = State(posted: seq<BusEvent>, queue: seq<BusEvent>, worker: Worker, log: seq<BusEvent>,
                         registry: Registry, sessions: map<nat, Session>)

  datatype Step =
    | Post(event: BusEvent)
    | Pop
    | Collect(order: seq<nat>)
    | SendNext
    | Finish
    | Register(id: nat, user: int)
    | Greet(id: nat)
    | RunStart(id: nat)
    | RunHandler(id: nat)
    | WriteBytes(id: nat, count: nat)
    | WriteEnds(id: nat, ok: bool)
    | RequestClose(id: nat)
    | Unregister(id: nat)
    | ClientReads(id: nat, count: nat)

  function MailName(m: Mail): string {
    if m.BusMail? then Name(m.event) else "connected"
  }

  function MailPayload(m: Mail): NotificationBridge.Payload {
    match m
    case BusMail(e) => NotificationBridge.PayloadOf(e)
    case Greeting(user) => map["userId" := NotificationBridge.Number(user)]
  }

  function Rendered(m: Mail, json: Json): string {
    json.render(MailPayload(m))
  }

  function Text(m: Mail, json: Json): string {
    EventText(MailName(m), Rendered(m, json))
  }

  /** The bytes handed to the socket so far. */
  function Written(x: Session): string {
    Concat(x.box.completed) + if x.box.queue != [] && x.partial <= |x.box.queue[0]| then x.box.queue[0][..x.partial] else ""
  }

  /** The HTTP layer keeps the response header from the parser. */
  function Body(wire: string): string {
    if |RESPONSE_HEADER| <= |wire| then wire[|RESPONSE_HEADER|..] else ""
  }

  function NewSession(user: int, since: nat): Session {
    Session(user, since, [], [], false, FRESH, 0, 0, NEW_PARSER)
  }

  function HandleMail(x: Session, json: Json): Session
    requires x.mail != []
  {
    var rest := x.(mail := x.mail[1..]);
    if x.box.closed then rest
    else rest.(accepted := x.accepted + [x.mail[0]], box := SseOutbox.Handle(x.box, Send(Text(x.mail[0], json))))
  }

  function ReadMore(x: Session, count: nat, json: Json): Session
    requires x.read + count <= |Written(x)|
  {
    var now, next := x.read, x.read + count;
    var chunk := Body(Written(x)[..next])[|Body(Written(x)[..now])|..];
    x.(read := next, parser := Feed(x.parser, chunk, json.isObject))
  }

  function Update(s: State, id: nat, x: Session): State {
    s.(sessions := s.sessions[id := x])
  }

  function SessionStep(x: Session, step: Step, json: Json): Session {
    match step
    case Greet(_) => if x.greeted then x else x.(greeted := true, mail := x.mail + [Greeting(x.user)])
    case RunStart(_) => x.(box := SseOutbox.Handle(x.box, DoStart))
    case RunHandler(_) => if !x.box.started || x.mail == [] then x else HandleMail(x, json)
    case WriteBytes(_, n) =>
      if x.box.inFlight == 0 || x.box.queue == [] || x.partial + n > |x.box.queue[0]| then x
      else x.(partial := x.partial + n)
    case WriteEnds(_, ok) =>
      if x.box.inFlight == 0 || x.box.queue == [] || (ok && x.partial != |x.box.queue[0]|) then x
      else x.(box := SseOutbox.Handle(x.box, WriteDone(ok)), partial := if ok then 0 else x.partial)
    case RequestClose(_) => x.(box := SseOutbox.Handle(x.box, DoClose))
    case ClientReads(_, n) => if x.read + n > |Written(x)| then x else ReadMore(x, n, json)
    case _ => x
  }

  ghost function Next(s: State, step: Step, json: Json): State {
    match step
    case Post(e) => s.(posted := s.posted + [e], queue := s.queue + [e])
    case Pop =>
      if s.worker != Idle || s.queue == [] then s else s.(worker := Popped(s.queue[0]), queue := s.queue[1..])
    case Collect(order) =>
      if !s.worker.Popped? || !IsCollected(s.registry, AudienceOf(s.worker.event), order) then s
      else s.(worker := Sending(s.worker.event, order), log := s.log + [s.worker.event])
    case SendNext =>
      if !s.worker.Sending? || s.worker.targets == [] || s.worker.targets[0] !in s.sessions then s
      else
        var id, x := s.worker.targets[0], s.sessions[s.worker.targets[0]];
        Update(s, id, x.(mail := x.mail + [BusMail(s.worker.event)])).(worker := Sending(s.worker.event, s.worker.targets[1..]))
    case Finish => if s.worker.Sending? && s.worker.targets == [] then s.(worker := Idle) else s
    case Register(id, user) =>
      if id in s.sessions then s
      else Update(s, id, NewSession(user, |s.log|)).(registry := Add(s.registry, user, id))
    case Unregister(id) =>
      if id !in s.sessions || !s.sessions[id].box.closed then s
      else s.(registry := Remove(s.registry, s.sessions[id].user, id))
    case _ => if step.id !in s.sessions then s else Update(s, step.id, SessionStep(s.sessions[step.id], step, json))
  }

  const START: State := State([], [], Idle, [], map[], map[])

  // ------------------------------------------------------------ what should arrive

  /** The events of a sequence that are addressed to a user. */
  function Addressed(events: seq<BusEvent>, user: int): seq<BusEvent> {
    if events == [] then []
    else (if AddressedTo(events[0], user) then [events[0]] else []) + Addressed(events[1..], user)
  }

  function BusEvents(mail: seq<Mail>): seq<BusEvent> {
    if mail == [] then [] else (if mail[0].BusMail? then [mail[0].event] else []) + BusEvents(mail[1..])
  }

  /** The notifications of bus events, as the client sees them. */
  function Notes(events: seq<BusEvent>, json: Json): seq<Notification> {
    if events == [] then []
    else [Notification(Name(events[0]), json.render(NotificationBridge.PayloadOf(events[0])))] + Notes(events[1..], json)
  }

  /** What a client decoded, without the greeting. */
  function WithoutGreeting(notes: seq<Notification>): seq<Notification> {
    if notes == [] then []
    else (if notes[0].name == "connected" then [] else [notes[0]]) + WithoutGreeting(notes[1..])
  }

  function MailNotes(mail: seq<Mail>, json: Json): seq<Notification> {
    if mail == [] then []
    else [Notification(MailName(mail[0]), Rendered(mail[0], json))] + MailNotes(mail[1..], json)
  }

  /** Every payload the library serialises is an object on lines that trimming does not change. */
  ghost predicate RendersObjects(json: Json) {
    forall p :: json.isObject(json.render(p)) && Survives(json.render(p))
  }

  /** Different objects serialise differently. */
  ghost predicate Faithful(json: Json) {
    forall p, q | json.render(p) == json.render(q) :: p == q
  }
}
