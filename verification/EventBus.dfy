/** The notification events, the queue between the posting threads and the worker, and whom each event is for. */
module EventBus {
  import opened Outcomes

  datatype BusEvent =
    | FileCreated(fileId: int, createdByUserId: int, currentVersionId: int, logicalName: string)
    | FileLocked(fileId: int, lockedByUserId: int, leaseUntil: int, lockToken: int)
    | FileUnlocked(fileId: int, lockToken: int)
    | GroupAssigned(userId: int, groupId: int, assignedByUserId: int, refreshFiles: bool)

  /** The event name the bridge publishes under. */
  function Name(e: BusEvent): string {
    match e
    case FileCreated(_, _, _, _) => "file_created"
    case FileLocked(_, _, _, _) => "file_locked"
    case FileUnlocked(_, _) => "file_unlocked"
    case GroupAssigned(_, _, _, _) => "group_assigned"
  }

  datatype Audience = ToUser(userId: int) | ToAll

  function AudienceOf(e: BusEvent): Audience {
    match e
    case FileCreated(_, user, _, _) => ToUser(user)
    case FileLocked(_, _, _, _) => ToAll
    case FileUnlocked(_, _) => ToAll
    case GroupAssigned(user, _, _, _) => ToUser(user)
  }

  predicate AddressedTo(e: BusEvent, user: int) {
    AudienceOf(e) == ToAll || AudienceOf(e) == ToUser(user)
  }

  /** The queue under its mutex. */
  class Bus {
    var events: seq<BusEvent>

    constructor ()
      ensures events == []
    {
      events := [];
    }

    method Post(e: BusEvent)
      modifies this
      ensures events == old(events) + [e]
    {
      events := events + [e];
    }

    /** One turn of the worker after its wait: nothing only when stopping with an empty queue, else the oldest
        event. */
    method TakeNext(stopRequested: bool) returns (e: Option<BusEvent>)
      requires stopRequested || events != []
      modifies this
      ensures old(events) == [] ==> e == None && events == []
      ensures old(events) != [] ==> e == Some(old(events)[0]) && events == old(events)[1..]
    {
      if stopRequested && events == [] {
        return None;
      }
      e := Some(events[0]);
      events := events[1..];
    }
  }
}
