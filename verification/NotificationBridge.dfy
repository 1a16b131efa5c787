/** The subscribers of the bus: each event becomes a payload published to the sessions it is for. */
module NotificationBridge {
  import opened EventBus
  import opened SessionRegistry

  datatype Value = Text(text: string) | Number(number: int) | Flag(flag: bool)

  /** A JSON object before it is serialised. */
  type Payload = map<string, Value>

  /** One `sendEvent` call. */
  datatype Sending = Sending(session: nat, name: string, payload: Payload)

  function PayloadOf(e: BusEvent): Payload {
    match e
    case FileCreated(file, user, version, name) =>
      map["type" := Text("file_created"), "fileId" := Number(file), "logicalName" := Text(name),
          "currentVersionId" := Number(version), "createdByUserId" := Number(user)]
    case FileLocked(file, user, until, token) =>
      map["type" := Text("file_locked"), "fileId" := Number(file), "lockedByUserId" := Number(user),
          "leaseUntil" := Number(until), "lockToken" := Number(token)]
    case FileUnlocked(file, token) =>
      map["type" := Text("file_unlocked"), "fileId" := Number(file), "lockToken" := Number(token)]
    case GroupAssigned(user, group, assignedBy, refresh) =>
      map["type" := Text("group_assigned"), "userId" := Number(user), "groupId" := Number(group),
          "assignedByUserId" := Number(assignedBy), "refreshFiles" := Flag(refresh)]
  }

  /** The payload carries the whole event: a client can tell any two events apart. */
  lemma PayloadDeterminesEvent(e: BusEvent, f: BusEvent)
    requires PayloadOf(e) == PayloadOf(f)
    ensures e == f
  {
    assert PayloadOf(e)["type"] == PayloadOf(f)["type"];
    assert Name(e) == Name(f);
    match e {
      case FileCreated(_, _, _, _) =>
        assert PayloadOf(e)["fileId"] == PayloadOf(f)["fileId"] && PayloadOf(e)["logicalName"] == PayloadOf(f)["logicalName"];
        assert PayloadOf(e)["currentVersionId"] == PayloadOf(f)["currentVersionId"];
        assert PayloadOf(e)["createdByUserId"] == PayloadOf(f)["createdByUserId"];
      case FileLocked(_, _, _, _) =>
        assert PayloadOf(e)["fileId"] == PayloadOf(f)["fileId"] && PayloadOf(e)["lockToken"] == PayloadOf(f)["lockToken"];
        assert PayloadOf(e)["lockedByUserId"] == PayloadOf(f)["lockedByUserId"];
        assert PayloadOf(e)["leaseUntil"] == PayloadOf(f)["leaseUntil"];
      case FileUnlocked(_, _) =>
        assert PayloadOf(e)["fileId"] == PayloadOf(f)["fileId"] && PayloadOf(e)["lockToken"] == PayloadOf(f)["lockToken"];
      case GroupAssigned(_, _, _, _) =>
        assert PayloadOf(e)["userId"] == PayloadOf(f)["userId"] && PayloadOf(e)["groupId"] == PayloadOf(f)["groupId"];
        assert PayloadOf(e)["assignedByUserId"] == PayloadOf(f)["assignedByUserId"];
        assert PayloadOf(e)["refreshFiles"] == PayloadOf(f)["refreshFiles"];
    }
  }

  function Receivers(sendings: seq<Sending>): (ids: seq<nat>)
    ensures |ids| == |sendings| && forall i | 0 <= i < |ids| :: ids[i] == sendings[i].session
  {
    seq(|sendings|, i requires 0 <= i < |sendings| => sendings[i].session)
  }

  /** The event went once to every session it is for, and to no other, under its name and with its payload. */
  ghost predicate Published(r: Registry, e: BusEvent, sendings: seq<Sending>) {
    && IsCollected(r, AudienceOf(e), Receivers(sendings))
    && forall i | 0 <= i < |sendings| :: sendings[i].name == Name(e) && sendings[i].payload == PayloadOf(e)
  }

  class SseNotificationBridge {
    const registry: ActiveSessionRegistry

    constructor (registry: ActiveSessionRegistry)
      ensures this.registry == registry
    {
      this.registry := registry;
    }

    method PublishToUser(userId: int, name: string, payload: Payload) returns (sendings: seq<Sending>)
      requires registry.Valid()
      ensures IsCollected(registry.Value(), ToUser(userId), Receivers(sendings))
      ensures forall i | 0 <= i < |sendings| :: sendings[i].name == name && sendings[i].payload == payload
    {
      var sessions := registry.CollectUserSessions(userId);
      sendings := [];
      for i := 0 to |sessions|
        invariant Receivers(sendings) == Ids(sessions)[..i]
        invariant forall j | 0 <= j < |sendings| :: sendings[j].name == name && sendings[j].payload == payload
      {
        sendings := sendings + [Sending(sessions[i].sessionId, name, payload)];
        assert Receivers(sendings) == Ids(sessions)[..i] + [sessions[i].sessionId];
      }
      assert Receivers(sendings) == Ids(sessions);
    }

    method PublishToAll(name: string, payload: Payload) returns (sendings: seq<Sending>)
      requires registry.Valid()
      ensures IsCollected(registry.Value(), ToAll, Receivers(sendings))
      ensures forall i | 0 <= i < |sendings| :: sendings[i].name == name && sendings[i].payload == payload
    {
      var sessions := registry.CollectAllSessions();
      sendings := [];
      for i := 0 to |sessions|
        invariant Receivers(sendings) == Ids(sessions)[..i]
        invariant forall j | 0 <= j < |sendings| :: sendings[j].name == name && sendings[j].payload == payload
      {
        sendings := sendings + [Sending(sessions[i].sessionId, name, payload)];
        assert Receivers(sendings) == Ids(sessions)[..i] + [sessions[i].sessionId];
      }
      assert Receivers(sendings) == Ids(sessions);
    }

    method OnFileCreated(e: BusEvent) returns (sendings: seq<Sending>)
      requires registry.Valid() && e.FileCreated?
      ensures IsCollected(registry.Value(), ToUser(e.createdByUserId), Receivers(sendings))
      ensures forall i | 0 <= i < |sendings| ::
                && sendings[i].name == "file_created"
                && sendings[i].payload == map["type" := Text("file_created"), "fileId" := Number(e.fileId),
                                          "logicalName" := Text(e.logicalName),
                                          "currentVersionId" := Number(e.currentVersionId),
                                          "createdByUserId" := Number(e.createdByUserId)]
      ensures Published(registry.Value(), e, sendings)
    {
      var payload := map["type" := Text("file_created"), "fileId" := Number(e.fileId), "logicalName" := Text(e.logicalName),
                         "currentVersionId" := Number(e.currentVersionId), "createdByUserId" := Number(e.createdByUserId)];
      sendings := PublishToUser(e.createdByUserId, "file_created", payload);
    }

    method OnFileLocked(e: BusEvent) returns (sendings: seq<Sending>)
      requires registry.Valid() && e.FileLocked?
      ensures IsCollected(registry.Value(), ToAll, Receivers(sendings))
      ensures forall i | 0 <= i < |sendings| ::
                && sendings[i].name == "file_locked"
                && sendings[i].payload == map["type" := Text("file_locked"), "fileId" := Number(e.fileId),
                                          "lockedByUserId" := Number(e.lockedByUserId),
                                          "leaseUntil" := Number(e.leaseUntil), "lockToken" := Number(e.lockToken)]
      ensures Published(registry.Value(), e, sendings)
    {
      var payload := map["type" := Text("file_locked"), "fileId" := Number(e.fileId),
                         "lockedByUserId" := Number(e.lockedByUserId), "leaseUntil" := Number(e.leaseUntil),
                         "lockToken" := Number(e.lockToken)];
      sendings := PublishToAll("file_locked", payload);
    }

    method OnFileUnlocked(e: BusEvent) returns (sendings: seq<Sending>)
      requires registry.Valid() && e.FileUnlocked?
      ensures IsCollected(registry.Value(), ToAll, Receivers(sendings))
      ensures forall i | 0 <= i < |sendings| ::
                && sendings[i].name == "file_unlocked"
                && sendings[i].payload == map["type" := Text("file_unlocked"), "fileId" := Number(e.fileId),
                                          "lockToken" := Number(e.lockToken)]
      ensures Published(registry.Value(), e, sendings)
    {
      var payload := map["type" := Text("file_unlocked"), "fileId" := Number(e.fileId), "lockToken" := Number(e.lockToken)];
      sendings := PublishToAll("file_unlocked", payload);
    }

    method OnGroupAssigned(e: BusEvent) returns (sendings: seq<Sending>)
      requires registry.Valid() && e.GroupAssigned?
      ensures IsCollected(registry.Value(), ToUser(e.userId), Receivers(sendings))
      ensures forall i | 0 <= i < |sendings| ::
                && sendings[i].name == "group_assigned"
                && sendings[i].payload == map["type" := Text("group_assigned"), "userId" := Number(e.userId),
                                          "groupId" := Number(e.groupId),
                                          "assignedByUserId" := Number(e.assignedByUserId),
                                          "refreshFiles" := Flag(e.refreshFiles)]
      ensures Published(registry.Value(), e, sendings)
    {
      var payload := map["type" := Text("group_assigned"), "userId" := Number(e.userId), "groupId" := Number(e.groupId),
                         "assignedByUserId" := Number(e.assignedByUserId), "refreshFiles" := Flag(e.refreshFiles)];
      sendings := PublishToUser(e.userId, "group_assigned", payload);
    }
  }
}
