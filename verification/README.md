# File-storage server and client: a verified model

A server keeps files with numbered versions in SQLite and their contents on disk, and a desktop client lists them, locks
them and listens for notifications. The libraries (SQLite, Boost.Asio, Beast and JSON, Qt) are taken as given; what is
modelled is the code on top of them, which is a set of small protocols between threads, strands, transactions, a socket
and asynchronous replies. `dafny verify dfyconfig.toml` checks everything.

Each protocol is a state machine: a datatype for the state, a total function `Next` for one atomic step of one thread or
handler, and theorems over `Run`, which folds `Next` over any list of steps. The objects of the source that update their
fields are classes, whose methods are proved against functions that the theorems are about. The state machines split some
operations finer than the objects do: the contracts of `EventBus.Bus`, `ContentStore.Disk` and `ConnectionPool.ReaderPool`
state whole operations on their own and are not tied to the steps of `NotificationPipeline`, `ContentStore` and
`ConnectionPool`, which take the same operations apart.

| files | component |
|---|---|
| `Outcomes`, `Runs`, `Sorting`, `TextSearch` | results, runs and their induction principles, sorting by a strict weak order, searching a text |
| `FileTables`, `FileDatabase`, `Pruning` | tables, SQL statements and transactions; the same in place; what pruning keeps |
| `FileVersionProtocol`, `FileVersionBound`, `FileVersionHistory` | concurrent `createNewVersion`, the bound on overtaking commits and why it is exact, and where rows come from |
| `ContentStore`, `ContentHistory` | contents on disk around the version rows, where they come from and what stays on disk |
| `EventStream`, `NotificationStream`, `StreamRoundTrip`, `StandardStream`, `StandardAgreement` | printers, incremental parser, round trip, the WHATWG HTML standard's reader and when the client agrees with it |
| `SseOutbox`, `EventBus`, `SessionRegistry`, `NotificationBridge`, `NotificationPipeline`, `NotificationDelivery`, `NotificationProgress` | outbox, bus, registry, bridge, the whole way from a posted event to the client, and that it can be gone to its end |
| `ConnectionPool`, `UnitNesting`, `UnitOfWork`, `IdGenerator` | reader pool and writer permit, which nestings of units cannot deadlock, write units of work, ids |
| `FileLocks` | lease locks and fencing |
| `FileHydration`, `GroupCache` | the client's fan-out and fan-in, and its caches |
| `HttpSession`, `QueryString`, `HexCodecs` | HTTP session automaton and codecs |

What the proofs show that a reader of the code might not expect:

- `createNewVersion` reads in a unit of work that begins no transaction, so its two SELECTs and its write are three
  separate moments. `UNIQUE(file_id, version)` protects the file only while at most N versions (its bound) are committed in
  between; with N+1 the late write is accepted, prunes its own row and leaves `current_version_id` dangling.
- If N or more versions are committed between the two SELECTs the call ends with NotFound, not Conflict.
- The write puts the whole file row back, so a rename between read and write is lost.
- `max_version_count` is unsigned and narrowed to `int` for the LIMIT: from 2^31 on it is negative and means no limit. 0
  deletes every version of the file; the controller refuses numbers below 1, but narrows a positive multiple of 2^32 to 0
  (`src/server/presentation/http/file-controller.cpp:115-124`).
- `acquireLock` never looks at the lease: a lock that has run out is reported as absent and still blocks everybody else.
- A ROLLBACK that is refused while its transaction stays open locks the writer out: every later BEGIN is refused.
- The client trims data lines and drops leading empty ones, which the standard does not; the exact condition under which
  both agree on an event, carriage returns in its data included, is `StandardAgreement.ClientAgreesIff`. A carriage return
  ends a line to the standard; the client trims it away as a blank, or keeps it inside a line.
- `getQueryParam` differs from a plain split only for an empty key and an empty last pair.

Assumptions: steps are sequentially consistent; handlers of one session run one at a time (`sendEvent` posts to the
stream's executor and is taken to run on the strand); `doStart` runs before any `sendEvent` handler of its session; every
HTTP handler defers at most once; ids and tokens come from the id generator and are fresh; a profile that comes back is
the one asked for; the collation of names and logins is a strict weak order; characters stand for bytes.

## Model

| member | source | states |
|---|---|---|
| `FileVersionProtocol.RunsStayConsistent` | src/server/domain/services/file-version-service.cpp:27-76 | For every file with a bound N other than 0 and every run of any number of interleaved calls, renames, removals and creations in which no write of that file is overtaken by more than N commits of it, whatever happens to other files: while the file exists its current version is stored, has the largest number c, and the stored numbers are exactly the last min(N, c) of 1..c; the schema constraints hold too |
| `FileVersionHistory.RowsComeFromSteps` | src/server/domain/services/file-version-service.cpp:27-76 | In every run, within any bound or beyond it: each version row is its file's first one as created, or what one call wrote, with the name snapshot, path and time that call's caller supplied and the number after the row it read; each file row has creator, bound and time of its creation and a name given to it; each call in flight carries what its own reads found |
| `FileVersionHistory.UndisturbedCallAppends` | src/server/domain/services/file-version-service.cpp:27-76 | From any state reached with the file within its bound, a call that nothing comes between adds one version with the next number and the name snapshot, path and time supplied, makes it current, keeps the rest of the file row, drops exactly the versions outside the bound, and changes no other table |
| `FileVersionHistory.CreationTakesEffect` | src/server/domain/services/file-service.cpp:30-81 | A creation under free ids of a free name, by a user with a group, puts the file there with its one version in one step |
| `FileVersionHistory.RenameTakesEffect` | src/server/domain/services/file-service.cpp:116-138 | A rename to a free name changes file name and current snapshot name in one step; calls in flight do not notice |
| `FileVersionHistory.RemovalTakesEffect` | src/server/domain/services/file-service.cpp:140-150 | A removed file is gone with its versions in one step; calls in flight stay |
| `FileVersionProtocol.StepKeepsInvariant` | src/server/domain/services/file-version-service.cpp:27-76 | Each single step (either read, the write transaction, create, rename, remove) keeps the invariant of one file behind the run theorem, including what every call in flight on it knows; writes of other files are not restricted |
| `FileVersionProtocol.InitKeepsInvariant` | src/server/infrastructure/database/sqlite/migrations/migration_init.h:27-48 | Empty file tables satisfy the invariant of every file |
| `FileVersionProtocol.BoundIsExact` | src/server/domain/services/file-version-service.cpp:49-75 | From any state reached with the file within its bound, whatever became of others, a write leaves the file consistent if and only if it is overtaken by at most N commits, or the name it read belongs to another file by then, so that it is refused |
| `FileVersionBound.OneMoreBreaks` | src/server/domain/services/file-version-service.cpp:27-76 | For every N in 1..2^31-1 there is a run with N+1 overtaking commits after which the late write is accepted and `current_version_id` names no stored row |
| `FileVersionProtocol.FarOvertakenDangles` | src/server/infrastructure/repositories/file-version-repository.cpp:74-99 | A write overtaken by more than N commits succeeds unless its name was taken, prunes the very row it inserted and leaves only the dangling file row behind |
| `FileVersionProtocol.OvertakenCallGetsConflict` | src/server/domain/services/file-version-service.cpp:51-60 | A call overtaken by 1..N commits of its file, or whose file is gone, gets Conflict and changes no table |
| `FileVersionProtocol.UnovertakenCallIsAtomic` | src/server/domain/services/file-version-service.cpp:49-75 | A call overtaken by no commit is one atomic append-and-prune; it fails if and only if the name it read now belongs to another file; a rename in between survives if and only if it changed nothing |
| `FileVersionProtocol.UnovertakenAppends` | src/server/domain/services/file-version-service.cpp:49-75 | The effect of an unovertaken write transaction said without SQL: one new row with number c+1, exactly the rows above the window stay, every other file, account and access entry is untouched |
| `FileVersionProtocol.SecondReadSucceedsIff` | src/server/domain/services/file-version-service.cpp:32-41 | The second read of a call finds its row if and only if fewer than N versions were committed since the first read; otherwise the call ends with NotFound |
| `FileVersionProtocol.CurrentVersionIsNewest` | src/server/domain/services/file-version-service.cpp:78-92 | While the file is within its bound, and with no commit between its two SELECTs, the current version is the stored version of the file with the largest number; NotFound exactly for a missing file |
| `FileVersionProtocol.BoundZeroDeletesAll` | src/server/infrastructure/repositories/file-version-repository.cpp:74-99 | With a bound of 0, which the service does not refuse, a successful write deletes every version of the file |
| `FileVersionProtocol.NewerCount` | src/server/infrastructure/repositories/file-version-repository.cpp:76-84 | The rank the pruning statement orders by is the number of larger version numbers of the file, because UNIQUE(file_id, version) makes rows and numbers correspond |
| `Pruning.PruneKeepsNewest` | src/server/infrastructure/repositories/file-version-repository.cpp:74-99 | Pruning keeps exactly min(N, all) rows of the file, each newer than every row deleted, unchanged, and all rows of other files; a negative limit keeps everything |
| `FileDatabase.Tables.WriteVersion` | src/server/domain/services/file-version-service.cpp:49-75 | The write unit of work, statement by statement with rollback on each failure, has exactly the effect and the result of the transaction the run theorems are about |
| `FileDatabase.Tables.GetCurrentVersion` | src/server/domain/services/file-version-service.cpp:78-92 | The row the file row names, or NotFound without the one or the other |
| `FileDatabase.Tables.CreateFile` | src/server/domain/services/file-service.cpp:30-81 | File row, first version, owner look-up and access entry in one transaction: all or nothing, with the failing statement's error |
| `FileDatabase.Tables.Rename` | src/server/domain/services/file-service.cpp:116-138 | Snapshot name and file name change together or not at all; Conflict when the name is taken |
| `FileDatabase.Tables.Remove` | src/server/domain/services/file-service.cpp:140-150 | The file goes with its versions and access entries, or NotFound and nothing changes |
| `FileDatabase.Tables.CreateFileRow` | src/server/infrastructure/repositories/file-repository.cpp:88-112 | Refused with Conflict exactly when the id, the name or the creator violates a constraint |
| `FileDatabase.Tables.UpdateFileRow` | src/server/infrastructure/repositories/file-repository.cpp:114-147 | Overwrites the whole row; NotFound without the row, Conflict on a taken name |
| `FileDatabase.Tables.RemoveFileRow` | src/server/infrastructure/repositories/file-repository.cpp:149-172 | Deletes the row and, by the cascade, its versions and access entries |
| `FileDatabase.Tables.AddVersion` | src/server/infrastructure/repositories/file-version-repository.cpp:22-45 | Conflict exactly on a used id, a used (file, number) pair or a missing file |
| `FileDatabase.Tables.UpdateVersionName` | src/server/infrastructure/repositories/file-version-repository.cpp:47-72 | Changes the name snapshot of one row, NotFound without it |
| `FileDatabase.Tables.RemoveOldVersions` | src/server/infrastructure/repositories/file-version-repository.cpp:74-99 | The newest N rows of the file stay, every row kept newer than every row deleted; other files, and every other table, are untouched |
| `FileDatabase.Tables.GetVersions` | src/server/infrastructure/repositories/file-version-repository.cpp:101-126 | Exactly the rows of the file, by strictly increasing number |
| `FileDatabase.Tables.Rollback` | src/server/infrastructure/database/sqlite/sqlite-database.cpp:38-49 | Leaving a unit without a commit restores the tables saved at its beginning |
| `FileTables.FileCreated` | src/server/domain/services/file-service.cpp:30-81 | A file is created if and only if ids and name are free, the creator is a user and the group named after the creator exists; then the file row, version 1 and read-write access of that group are new and nothing else changes; NotFound if and only if only that group is missing, else Conflict |
| `FileTables.FileDeleted` | src/server/domain/services/file-service.cpp:140-150 | Row, versions and access entries of that file go, all of them, and nothing of any other file |
| `FileTables.FileRenamed` | src/server/domain/services/file-service.cpp:116-138 | A file is renamed if and only if it is there with its current version and no other file has the name; NotFound or Conflict otherwise; file name and snapshot of the current version change and nothing else |
| `Pruning.CommitKeepsNewest` | src/server/infrastructure/repositories/file-version-repository.cpp:74-99 | After a commit the file has min(bound, all) versions; a bound from 2^31 on, negative after the conversion, keeps all |
| `ContentHistory.RunsKeepContent` | src/server/presentation/http/file-content-controller.cpp:175-213 | In every run of concurrent creations, uploads, failures, cleanups, prunings, renames and deletions each version row's path is shared with no other row, and a download of it gives exactly the content that was supplied by the request which created or uploaded this very version of this file |
| `ContentHistory.DownloadFindsBytes` | src/server/presentation/http/file-content-controller.cpp:136-148 | A download that has resolved a row gives the content supplied for it at any later time, even if the row is pruned or the file removed by then |
| `ContentHistory.CurrentDownloadIsNewest` | src/server/presentation/http/file-content-controller.cpp:136-148 | In every run in which no write of the file is overtaken by more commits than its bound, a download of its current version gives exactly the content supplied for that version of that file, and no stored version of the file is newer |
| `ContentHistory.DiskIsAccounted` | src/server/presentation/http/file-content-controller.cpp:182-204 | In every run, whatever was on disk before: that is untouched, and a blob is on disk if and only if it was there before, is committed, belongs to one request under way, or was left by a request whose unlink was refused or whose commit threw |
| `ContentHistory.UndisturbedUpload` | src/server/presentation/http/file-content-controller.cpp:182-209 | From any state reached with the file within its bound, an upload that nothing comes between succeeds: the current version has the next number and what was supplied, its download gives the content supplied, and no other blob changes |
| `ContentHistory.UndisturbedCreation` | src/server/presentation/http/file-controller.cpp:131-145 | A creation that nothing comes between, of a free name by a user with a group: file row, first version and read-write access as asked for, and its download gives the empty content |
| `ContentHistory.FailedWriteLeavesNothing` | src/server/presentation/http/file-content-controller.cpp:189-195 | An upload whose writing fails and whose unlink succeeds leaves the whole state as it was |
| `ContentHistory.RefusedCallLeavesNothing` | src/server/presentation/http/file-content-controller.cpp:197-204 | A written upload of a missing file, its path unlinked, leaves the whole state as it was |
| `ContentStore.RunsKeepCommitted` | src/server/presentation/http/file-content-controller.cpp:175-213 | In every run what is committed stays committed, on disk, unshared and unchanged |
| `ContentStore.CoreFollowsProtocol` | src/server/presentation/http/file-content-controller.cpp:182-204 | Under the contents, each step moves tables and calls by one step of the version protocol or by none |
| `ContentStore.StepKeepsCommitted` | src/server/presentation/http/file-content-controller.cpp:189-204 | No step, a cleanup included, takes back or changes a committed content |
| `ContentStore.StepKeepsInvariant` | src/server/presentation/http/file-content-controller.cpp:182-204 | Each step keeps every row's content in place and every pending upload the only owner of its path |
| `ContentStore.Disk.CreateNew` | src/server/domain/services/file-content-service.cpp:17-30 | O_EXCL: Conflict when the path exists, InternalError when the system refuses for another reason, else a new empty file; nothing else changed |
| `ContentStore.Disk.WriteAll` | src/server/domain/services/file-content-service.cpp:62-98 | Whatever the sizes of the single writes and interruptions: success means the file holds exactly the content; a file that cannot be opened or truncated is as before; on every other outcome it holds a proper prefix; other files are untouched |
| `ContentStore.Disk.Remove` | src/server/domain/services/file-content-service.cpp:100-107 | Unlinks that path only; InternalError, and nothing changed, without it or when the system refuses |
| `ContentStore.Disk.Download` | src/server/domain/services/file-content-service.cpp:44-60 | The bytes under the path, NotFound without it, InternalError when the system refuses |
| `EventStream.BuildEvent` | src/server/infrastructure/http/sse-session.cpp:118-161 | The text of the event, and a result exactly 8 shorter than the reserved size, for every input |
| `EventStream.BuildComment` | src/server/infrastructure/http/sse-session.cpp:163-196 | The text of the comment, and a result exactly 4 shorter than the reserved size, for every input |
| `EventStream.AppendFields` | src/server/infrastructure/http/sse-session.cpp:142-158 | The splitting loop appends one prefixed field per line and then an empty line |
| `EventStream.JoinUndoesLines` | src/server/infrastructure/http/sse-session.cpp:142-158 | Splitting at newlines loses nothing: joining the lines gives the text back |
| `EventStream.FieldsSize` | src/server/infrastructure/http/sse-session.cpp:125-131 | The exact size of the printed fields for any text |
| `NotificationStream.NotificationStreamClient.ConsumeAvailableBytes` | src/client/infrastructure/api/notification-stream-client.cpp:69-90 | Any chunk, however it falls, leaves the state that its bytes fed one by one lead to |
| `NotificationStream.NotificationStreamClient.ConsumeOneLine` | src/client/infrastructure/api/notification-stream-client.cpp:92-113 | A name line sets the trimmed name, a data line adds its trimmed text after a newline unless it is the first, a comment or unknown line changes nothing, an empty line dispatches |
| `NotificationStream.NotificationStreamClient.DispatchCurrentEvent` | src/client/infrastructure/api/notification-stream-client.cpp:115-135 | An empty event is ignored, one that is no JSON object is dropped, any other is delivered; name and data are cleared |
| `NotificationStream.ChunkInvariance` | src/client/infrastructure/api/notification-stream-client.cpp:69-135 | For every byte string and every split into chunks the delivered events and the final buffer, name and data equal those of one feed of the whole string |
| `NotificationStream.PrefixDeliversPrefix` | src/client/infrastructure/api/notification-stream-client.cpp:69-135 | A prefix of the stream delivers a prefix of the events: what was delivered is never taken back |
| `StreamRoundTrip.TrimCutsBlanks` | src/client/infrastructure/api/notification-stream-client.cpp:102-111 | Trimming takes exactly the blanks (space, tab, newline, vertical tab, form feed, return) off both ends |
| `StreamRoundTrip.FeedPrinted` | src/client/infrastructure/api/notification-stream-client.cpp:69-135 | For any sequence of comments and events with single-line names, the client delivers exactly the trimmed events that are objects, in order, and ends with empty state |
| `StreamRoundTrip.ReceivedVerbatimIff` | src/client/infrastructure/api/notification-stream-client.cpp:107-112 | The data come back unchanged if and only if they do not begin with a newline and trimming changes none of their lines |
| `StreamRoundTrip.DeliveredVerbatimIff` | src/client/infrastructure/api/notification-stream-client.cpp:92-135 | For every name and data, what the client delivers for the printed event is exactly that event if and only if its name is one line and trimmed, its data survive trimming and are a JSON object, and it is not wholly empty |
| `StreamRoundTrip.ParsingUndoesPrinting` | src/server/infrastructure/http/sse-session.cpp:118-196 | Everything the server is meant to emit is parsed back event by event, in order, with empty state at the end |
| `StandardStream.StandardReadsPrinted` | src/server/infrastructure/http/sse-session.cpp:118-196 | By the interpretation of the WHATWG HTML standard, sections 9.2.5 and 9.2.6, every printed event without carriage returns comes out verbatim |
| `StandardAgreement.ClientAgreesIff` | src/client/infrastructure/api/notification-stream-client.cpp:69-135 | For one printed event with a name without line ends, and any data, carriage returns included: what the client delivers is what the standard dispatches if and only if the name is non-empty and trimmed; behind the first carriage return of each data line there are only blanks, with two returns in a row in the last line at most; and the data without those tails survive trimming and are a JSON object |
| `StandardAgreement.ClientAgreesIffPlain` | src/client/infrastructure/api/notification-stream-client.cpp:69-135 | The same for data without carriage returns: if and only if the name is non-empty and trimmed and the data survive trimming and are a JSON object |
| `StandardAgreement.ReturnInsideObject` | src/client/infrastructure/api/notification-stream-client.cpp:107-112 | A carriage return between the braces of an object, which JSON allows, always makes client and standard differ |
| `StandardStream.ClientMatchesStandard` | src/client/infrastructure/api/notification-stream-client.cpp:69-135 | On every emittable stream the client and the standard deliver the same events |
| `SseOutbox.RunsConserve` | src/server/infrastructure/http/sse-session.cpp:66-116 | In every run: completed payloads followed by the outbox are the enqueued payloads; at most one write is outstanding; while open a write is in progress if and only if the outbox is non-empty; the close callback has run exactly once if closed, else never |
| `SseOutbox.FrontStaysInFlight` | src/server/infrastructure/http/sse-session.cpp:74-84 | The payload being written stays the front of the outbox until its completion |
| `SseOutbox.NothingStartsAfterClose` | src/server/infrastructure/http/sse-session.cpp:74-113 | After the close, over any further run, nothing is accepted, no write starts and the callback is not called again |
| `SseOutbox.OpenOutboxDrains` | src/server/infrastructure/http/sse-session.cpp:74-100 | As long as the writes succeed an open session gets out everything enqueued, in order, in as many completions as there are payloads |
| `SseOutbox.OpenOutboxAccepts` | src/server/infrastructure/http/sse-session.cpp:19-46 | An open session accepts every payload, and header and comment on its first start; a failed write or a close ends it and takes nothing off the queue |
| `SseOutbox.SseSession.HandleStart` | src/server/infrastructure/http/sse-session.cpp:19-35 | The header and the connected comment are enqueued once, and only on an open session |
| `SseOutbox.SseSession.HandleSendEvent` | src/server/infrastructure/http/sse-session.cpp:37-46 | The event's text is enqueued unless the session is closed |
| `SseOutbox.SseSession.EnqueuePayload` | src/server/infrastructure/http/sse-session.cpp:66-72 | Appends, and starts a write exactly when none is in progress |
| `SseOutbox.SseSession.HandleWritten` | src/server/infrastructure/http/sse-session.cpp:86-100 | On success the front is removed and the next write started; on an error the session closes |
| `SseOutbox.SseSession.HandleClose` | src/server/infrastructure/http/sse-session.cpp:102-116 | Only the first close has an effect |
| `EventBus.Bus.Post` | src/server/infrastructure/event/event-bus.h:34-42 | The event goes to the end of the queue |
| `EventBus.Bus.TakeNext` | src/server/infrastructure/event/event-bus.h:58-69 | One turn of the worker: the oldest event, also when a stop was requested during the wait; nothing only when stopping with an empty queue |
| `SessionRegistry.AddRemove` | src/server/infrastructure/http/active-session-registry.cpp:13-31 | Adding or removing one session changes the registration of that session only, and no user without sessions keeps an entry |
| `SessionRegistry.ActiveSessionRegistry.NextSessionId` | src/server/infrastructure/http/active-session-registry.cpp:9-11 | A session id no registered session has |
| `SessionRegistry.ActiveSessionRegistry.AddSession` | src/server/infrastructure/http/active-session-registry.cpp:13-16 | The nested map gains exactly this session |
| `SessionRegistry.ActiveSessionRegistry.RemoveSession` | src/server/infrastructure/http/active-session-registry.cpp:18-31 | The nested map loses exactly this session, and the user's entry with the last one |
| `SessionRegistry.ActiveSessionRegistry.CollectUserSessions` | src/server/infrastructure/http/active-session-registry.cpp:49-66 | Exactly the user's sessions, each once, in any order |
| `SessionRegistry.ActiveSessionRegistry.CollectAllSessions` | src/server/infrastructure/http/active-session-registry.cpp:68-82 | Exactly all sessions, each once, in any order |
| `NotificationBridge.PayloadDeterminesEvent` | src/server/presentation/http/sse-notification-bridge.cpp:27-61 | The payload carries the whole event: two events with one payload are the same event |
| `NotificationBridge.SseNotificationBridge.PublishToUser` | src/server/infrastructure/http/active-session-registry.cpp:33-39 | Name and data go once to every session of the user, and to no other |
| `NotificationBridge.SseNotificationBridge.PublishToAll` | src/server/infrastructure/http/active-session-registry.cpp:41-47 | Name and data go once to every session |
| `NotificationBridge.SseNotificationBridge.OnFileCreated` | src/server/presentation/http/sse-notification-bridge.cpp:27-35 | The creator's sessions, each once, and no others, get `file_created` with the type, file, logical name, version and creator, and that is what the run theorems call the event's name, payload and audience |
| `NotificationBridge.SseNotificationBridge.OnFileLocked` | src/server/presentation/http/sse-notification-bridge.cpp:37-45 | All sessions, each once, get `file_locked` with the type, file, holder, lease end and token, and that is what the run theorems call the event's name, payload and audience |
| `NotificationBridge.SseNotificationBridge.OnFileUnlocked` | src/server/presentation/http/sse-notification-bridge.cpp:47-51 | All sessions, each once, get `file_unlocked` with the type, file and token, and that is what the run theorems call the event's name, payload and audience |
| `NotificationBridge.SseNotificationBridge.OnGroupAssigned` | src/server/presentation/http/sse-notification-bridge.cpp:53-61 | The assigned user's sessions, each once, and no others, get `group_assigned` with the type, user, group, assigner and refresh flag, and that is what the run theorems call the event's name, payload and audience |
| `NotificationDelivery.ClientsDecodePrefixes` | src/client/infrastructure/api/notification-stream-client.cpp:69-135 | End to end, in every run, whatever the interleaving, write completions and read sizes: the bus events a client decodes are a prefix of those not dispatched before its registration and addressed to its user, in post order, each once |
| `NotificationDelivery.ClientsKnowEvents` | src/client/infrastructure/api/notification-stream-client.cpp:69-135 | If different objects serialise differently, what a client has decoded in any run stands for exactly one sequence of bus events, and that is a prefix of the events it is due |
| `NotificationDelivery.DrainedClientHasAll` | src/server/infrastructure/http/active-session-registry.cpp:33-47 | Nothing is lost: once an open session has drained, its client has decoded every event it is due |
| `NotificationProgress.DueCanArrive` | src/server/infrastructure/event/event-bus.h:34-80 | From every reachable state, for every open session: without any further post there are steps after which its client has decoded exactly the events it is due |
| `NotificationProgress.LocksReachEveryone` | src/server/presentation/http/sse-notification-bridge.cpp:37-51 | The client of every drained open session, whoever its user is, has decoded each lock and unlock not dispatched before its registration, with its name and every field of its payload |
| `NotificationDelivery.DueCount` | src/server/presentation/http/sse-notification-bridge.cpp:27-61 | Of any events a user is due each lock and unlock, each creation by that user and each assignment of that user, as often as it occurs, and no other |
| `NotificationProgress.RunsRecordSteps` | src/server/infrastructure/event/event-bus.h:34-42 | In every run the posted events are those of the `Post` steps in their order, and the sessions those registered, each for its own user |
| `NotificationProgress.SessionsComeAndGo` | src/server/presentation/http/notification-controller.cpp:23-43 | A new session is registered, open and due what is dispatched from then on; it is greeted once, by `connected` with its user; closing it takes it off the registry |
| `NotificationDelivery.RunsKeepInvariant` | src/server/infrastructure/event/event-bus.h:34-80 | In every run: posted events are dispatched, in hand or queued, in order; per session the accepted, waiting and pending events are exactly the addressed ones; outbox and parser match |
| `NotificationDelivery.StepKeepsInvariant` | src/server/presentation/http/sse-notification-bridge.cpp:27-61 | Each step of a poster, the worker, a strand, a socket or a client keeps that invariant |
| `NotificationDelivery.CollectedIffAddressed` | src/server/presentation/http/sse-notification-bridge.cpp:27-61 | An open session is collected for an event if and only if the event is addressed to its user |
| `NotificationDelivery.StreamDeliversMail` | src/server/infrastructure/http/sse-session.cpp:19-46 | The whole stream of a session, parsed, gives exactly the accepted events, greeting included |
| `ConnectionPool.RunsKeepAccounts` | src/server/infrastructure/database/sqlite/sqlite-database.cpp:58-66 | Under every schedule: queue length = permits + threads that took a permit and have not popped + threads that pushed and have not released; every connection is in exactly one place; the writer's permit is there or with one thread |
| `ConnectionPool.PopFindsConnection` | src/server/infrastructure/database/sqlite/sqlite-database.cpp:85-89 | `front()` is never called on an empty queue |
| `ConnectionPool.StepKeepsAccounts` | src/server/infrastructure/database/sqlite/sqlite-database.cpp:79-108 | Each acquire, pop, push and release step keeps the accounts |
| `ConnectionPool.StepKeepsConnections` | src/server/infrastructure/database/sqlite/sqlite-database.cpp:79-108 | Each step keeps every connection in exactly one place: no connection has two holders and none is lost |
| `ConnectionPool.SomeoneMoves` | src/server/infrastructure/database/sqlite/sqlite-database.cpp:68-108 | With at least one reader, as long as a thread has work left some thread can move |
| `ConnectionPool.EveryScheduleFinishes` | src/server/infrastructure/database/sqlite/sqlite-database.cpp:68-108 | No deadlock and no endless run: every schedule has at most as many steps as there is work, and one that cannot be extended has finished all calls with every connection queued and every permit returned |
| `ConnectionPool.NoReaderNoRead` | src/server/infrastructure/database/sqlite/sqlite-database.cpp:79-81 | Without a reader connection a thread that needs one waits forever |
| `ConnectionPool.ReaderPool.constructor` | src/server/infrastructure/database/sqlite/sqlite-database.cpp:58-66 | As many permits as queued connections |
| `ConnectionPool.ReaderPool.CreateReadUnitOfWork` | src/server/infrastructure/database/sqlite/sqlite-database.cpp:79-97 | Takes a permit and the oldest queued connection |
| `ConnectionPool.ReaderPool.ReleaseReader` | src/server/infrastructure/database/sqlite/sqlite-database.cpp:101-108 | Queues the connection at the end and returns the permit |
| `ConnectionPool.ReadUnitOfWork.Close` | src/server/infrastructure/database/sqlite/sqlite-database.cpp:11-18 | The connection is given back once, however often the unit is closed |
| `UnitNesting.DisciplineFinishes` | src/server/infrastructure/database/sqlite/sqlite-database.cpp:68-108 | If no call awaits anything while it holds a reader, nor the writer while it holds the writer, calls may nest units and still no schedule deadlocks or runs on: it ends with all calls finished and every permit returned |
| `UnitNesting.FlatIsDisciplined` | src/server/domain/services/file-version-service.cpp:47-49 | Calls that give each unit back before they take the next, as the service methods do, keep that discipline |
| `UnitNesting.FlatTakesUnits` | src/server/domain/services/file-version-service.cpp:47-49 | Each unit of such a call takes and gives back a permit of its own kind |
| `UnitNesting.NestedCallsBlock` | src/server/infrastructure/database/sqlite/sqlite-database.cpp:68-97 | Without it, for every number of readers: calls that wait for the writer while they hold a reader can block each other, and a call that reads inside its write unit, forever |
| `UnitOfWork.UnitReleasesOnce` | src/server/infrastructure/database/sqlite/sqlite-database.cpp:20-56 | Whatever commits and rollbacks its body makes and whichever of them are refused, a write unit ends finished, has given the writer back exactly once, has stored exactly the contents of its first successful commit before any rollback, and leaves a transaction open exactly if the ROLLBACK that ended it was refused |
| `UnitOfWork.WriterServesInOrder` | src/server/infrastructure/database/sqlite/sqlite-database.cpp:68-77 | Over any series of service calls, refused BEGINs included, the permit always comes back and the stored contents are the calls' effects in order |
| `UnitOfWork.LockedOutForGood` | src/server/infrastructure/database/sqlite/sqlite-database.cpp:38-49 | After a refused ROLLBACK that left its transaction open, no later call stores anything |
| `UnitOfWork.CommitStoresLastWrite` | src/server/infrastructure/database/sqlite/sqlite-database.cpp:29-36 | A unit whose first successful commit comes before any rollback stores what was last written before that commit |
| `UnitOfWork.UncommittedChangesNothing` | src/server/infrastructure/database/sqlite/sqlite-database.cpp:38-49 | A unit without a successful commit leaves the stored contents as they were |
| `UnitOfWork.SqliteDatabase.CreateWriteUnitOfWork` | src/server/infrastructure/database/sqlite/sqlite-database.cpp:68-77 | A begun unit with the permit taken, or, when BEGIN is refused, the permit back and nothing changed |
| `UnitOfWork.WriteUnitOfWork.CommitTransaction` | src/server/infrastructure/database/sqlite/sqlite-database.cpp:29-36 | Stores and releases on success; a refused COMMIT leaves the unit unfinished; a finished unit does nothing |
| `UnitOfWork.WriteUnitOfWork.RollbackTransaction` | src/server/infrastructure/database/sqlite/sqlite-database.cpp:38-49 | Drops the changes, finishes and releases, swallowing a refusal |
| `UnitOfWork.WriteUnitOfWork.Close` | src/server/infrastructure/database/sqlite/sqlite-database.cpp:51-56 | Releases the writer once |
| `UnitOfWork.WriteUnitOfWork.Destroy` | src/server/infrastructure/database/sqlite/sqlite-database.cpp:24-27 | Rolls back if unfinished and releases if not yet released |
| `IdGenerator.IdsDistinctAndOrdered` | src/server/infrastructure/id-generator/id-generator.h:9-30 | For any interleaving, clock readings, stale loads and spurious failures, every id is distinct and greater than all ids drawn before its call began, as long as none is drawn at the top value |
| `IdGenerator.LaterIdsGreater` | src/server/infrastructure/id-generator/id-generator.h:9-30 | Every id drawn after some moment of a run below the top is greater than every id drawn before it; so each is greater than all drawn before its own call began |
| `IdGenerator.IdsIncreaseIff` | src/server/infrastructure/id-generator/id-generator.h:21-29 | Whatever value an overflowing sum is given, ids strictly increase if and only if no id is drawn while the value is 2^63-1 |
| `IdGenerator.IdsFollowClock` | src/server/infrastructure/id-generator/id-generator.h:21-29 | In every run below the top each id is the least value above the one before it and not below the last clock reading of the call that drew it, and the ids counted for its call are those drawn when the call began |
| `IdGenerator.DrawsLeast` | src/server/infrastructure/id-generator/id-generator.h:22-25 | An exchange draws the least value above the old one and not below the call's last clock reading |
| `IdGenerator.SpinDrawsLeast` | src/server/infrastructure/id-generator/id-generator.h:21-29 | The loop of one call draws the least value above the one it replaces and not below its last clock reading |
| `IdGenerator.ClockKeepsBelowTop` | src/server/infrastructure/id-generator/id-generator.h:13-19 | A run with bounded clock readings and fewer steps than are left above the bound never draws at the top |
| `IdGenerator.TopNeverGrows` | src/server/infrastructure/id-generator/id-generator.h:22 | At 2^63-1 the next id is no greater than the one before it, whatever value the overflowing sum is given |
| `IdGenerator.GenerateId` | src/server/infrastructure/id-generator/id-generator.h:9-30 | The loop gives the id, and leaves the value, that the passes it is given determine; if others only raise the value, the id is the least above the value replaced and not below the last clock reading |
| `IdGenerator.SpinExceeds` | src/server/infrastructure/id-generator/id-generator.h:21-29 | If others only raise the value, the id of a call is greater than the value ever was before |
| `IdGenerator.AtomicInt64.CompareExchangeWeak` | src/server/infrastructure/id-generator/id-generator.h:24 | Exchanges exactly when the value is the expected one and the exchange does not fail spuriously; reports the value found otherwise |
| `FileLocks.MutualExclusion` | src/server/domain/services/file-lock-service.cpp:22-38 | In every run with an arbitrary clock, between two successful acquires of a file lies the release with the first one's token or the file's deletion |
| `FileLocks.HeldThroughout` | src/server/domain/services/file-lock-service.cpp:22-86 | From a successful acquire until its own release or the file's deletion the row keeps its user and token, and every other acquire on the file gets Conflict |
| `FileLocks.RetiredTokenIsPowerless` | src/server/domain/services/file-lock-service.cpp:40-86 | Over every later run a token that is on no row any more stays so, and a release with it, or the late update of a renewal whose check passed while it was good, changes no table |
| `FileLocks.EndRetiresToken` | src/server/domain/services/file-lock-service.cpp:75-86 | The holder's release and the file's deletion retire the token |
| `FileLocks.RowChangesOnlyByHolder` | src/server/infrastructure/repositories/file-lock-repository.cpp:43-66 | A file's lock row changes or goes only by an operation with the row's own token or by the file's deletion |
| `FileLocks.RunsKeepTokensDistinct` | src/server/domain/services/file-lock-service.cpp:26-29 | In every run no two rows share a token |
| `FileLocks.RunsKeepInvariant` | src/server/infrastructure/database/sqlite/migrations/migration_init.h:60-68 | In every run the row of a file is the holder's by the history of operations, and the foreign keys hold |
| `FileLocks.ExpiredLockBlocks` | src/server/domain/services/file-lock-service.cpp:88-105 | Acquiring succeeds if and only if file and user exist and the file has no row, whatever the clock; a lease that has run out is reported as absent and cannot be renewed; another token on an active lock is Forbidden |
| `FileLocks.ActiveUntilLeaseEnds` | src/server/domain/services/file-lock-service.cpp:22-105 | An acquired lock is reported active, with its user and token, exactly until its lease ends; a renewal that goes through moves that end and nothing else |
| `FileLocks.ExpiredStaysLocked` | src/server/domain/services/file-lock-service.cpp:40-61 | Once a lease has run out with no renewal under way and the clock does not go back, the file stays locked with that row until the holder's release or the file's deletion |
| `FileLocks.RenewalMovesLease` | src/server/domain/services/file-lock-service.cpp:46-73 | An undisturbed renewal with the lock's token before its lease ends moves the lease to its duration after the second clock reading; any other changes no table |
| `FileLocks.LockPassesOn` | src/server/domain/services/file-lock-service.cpp:22-86 | A file without a row, or released by its holder, goes to the next user who acquires it, with the lease and token asked for; a release with another token does nothing |
| `FileLocks.KeysComeAndGo` | src/server/infrastructure/database/sqlite/migrations/migration_init.h:60-68 | Deleting a file takes its lock along and no other; a user who holds a lock cannot be deleted |
| `FileLocks.FileLockService.AcquireLock` | src/server/domain/services/file-lock-service.cpp:22-38 | The inserted row with lease and token, or Conflict and nothing changed |
| `FileLocks.FileLockService.BeginRenewLock` | src/server/domain/services/file-lock-service.cpp:46-61 | NotFound without a row or with a lease that has run out, Forbidden with another token |
| `FileLocks.FileLockService.FinishRenewLock` | src/server/domain/services/file-lock-service.cpp:63-73 | Moves the lease of the row with the token, or NotFound and nothing changed |
| `FileLocks.FileLockService.ReleaseLock` | src/server/domain/services/file-lock-service.cpp:75-86 | Deletes the row with the token, or NotFound and nothing changed |
| `FileLocks.FileLockService.GetActiveLock` | src/server/domain/services/file-lock-service.cpp:88-105 | The row if its lease has not run out, else NotFound |
| `FileLocks.LockTable.Insert` | src/server/infrastructure/repositories/file-lock-repository.cpp:20-41 | A violated primary or foreign key leaves the table alone |
| `FileLocks.LockTable.DeleteWhere` | src/server/infrastructure/repositories/file-lock-repository.cpp:43-66 | Deletes by file and token and counts the rows changed |
| `FileLocks.LockTable.UpdateWhere` | src/server/infrastructure/repositories/file-lock-repository.cpp:91-117 | Updates the lease by file and token and counts the rows changed |
| `FileHydration.Confluence` | src/client/domain/services/file-catalog-service.cpp:138-261 | For distinct file ids, every order of the 3n replies and any mix of failures: no callback and no change before the last reply, exactly one callback at it, and the cache then holds exactly the hydrated files |
| `FileHydration.OrderDoesNotMatter` | src/client/domain/services/file-catalog-service.cpp:138-261 | Any two orders of the same replies end in the same cache |
| `FileHydration.CachedFields` | src/client/domain/services/file-catalog-service.cpp:164-247 | Field by field: the replies that succeeded, the old creator and access level where they failed, no lock where none was found, the holder's login only if it was found |
| `FileHydration.RequestsAre` | src/client/domain/services/file-catalog-service.cpp:152-161 | Creator, access and lock are requested for each file, in that order, and nothing else |
| `FileHydration.ListingUnique` | src/client/infrastructure/repositories/file-repository.cpp:32-45 | If the collation tells the names apart, the cache has one listing by name |
| `FileHydration.NothingBeforeLast` | src/client/domain/services/file-catalog-service.cpp:249-253 | After k replies exactly those k have been filled in and 3n-k are pending |
| `FileHydration.FileCatalogService.HydrateFiles` | src/client/domain/services/file-catalog-service.cpp:138-162 | A failure is passed on and leaves the cache; an empty list empties it and calls back at once; else three requests per file go out |
| `FileHydration.FileCatalogService.OnReply` | src/client/domain/services/file-catalog-service.cpp:164-247 | Fills in the first file with the id and counts the reply; the last one stores and calls back with a listing by name; repeated ids included |
| `FileHydration.FileCatalogService.FinishFileHydration` | src/client/domain/services/file-catalog-service.cpp:249-261 | Counts down; at zero sorts, replaces the cache and calls back once; repeated ids included |
| `FileHydration.FileCatalogService.FindFile` | src/client/domain/services/file-catalog-service.cpp:263-267 | The first file with the id |
| `FileHydration.FileRepository.ReplaceAll` | src/client/infrastructure/repositories/file-repository.cpp:12-17 | Exactly the given files by id, the last one for a repeated id |
| `FileHydration.FileRepository.Upsert` | src/client/infrastructure/repositories/file-repository.cpp:19 | Sets that id only |
| `FileHydration.FileRepository.Remove` | src/client/infrastructure/repositories/file-repository.cpp:21 | Removes that id only |
| `FileHydration.FileRepository.FindById` | src/client/infrastructure/repositories/file-repository.cpp:23-30 | The cached file with the id, if any |
| `FileHydration.FileRepository.All` | src/client/infrastructure/repositories/file-repository.cpp:32-45 | Every cached file once, by name |
| `GroupCache.LoadedUsers` | src/client/domain/services/group-sharing-service.cpp:229-279 | For every id list, repetitions included, and every arrival order: nothing is delivered before the last reply, then one list, and what is stored for it has each id of the input exactly once, no other, by login |
| `GroupCache.StoredProfiles` | src/client/domain/services/group-sharing-service.cpp:254-279 | What is stored are the profiles that came back, and "unknown user" for failed requests, and nothing else; a profile of an id asked for once is never lost |
| `GroupCache.CachedGroups` | src/client/domain/services/group-sharing-service.cpp:198-227 | Every group that came back, and "unknown group" for each failed request, is cached under its id, and nothing else |
| `GroupCache.LastValidIsCached` | src/client/infrastructure/repositories/group-repository.cpp:24-29 | The last valid profile of an id in a list is the one cached for it |
| `GroupCache.OthersStayCached` | src/client/infrastructure/repositories/group-repository.cpp:24-29 | An id without a valid profile in the list keeps what was cached for it |
| `GroupCache.ArrivalOrderDoesNotMatter` | src/client/domain/services/group-sharing-service.cpp:254-279 | Two arrival orders of the same replies store the same list, if each id has one profile and the collation tells the logins apart |
| `GroupCache.AddingMember` | src/client/domain/services/group-sharing-service.cpp:87-92 | Adding a user adds its id; adding a member again leaves the ids as they are |
| `GroupCache.RemovingMember` | src/client/domain/services/group-sharing-service.cpp:115-121 | Removing a user removes exactly its id |
| `GroupCache.MemberListUnique` | src/client/infrastructure/repositories/group-repository.cpp:24-41 | The stored list depends only on the set of profiles given, if they are one per id and the collation tells the logins apart |
| `GroupCache.GroupOrderDoesNotMatter` | src/client/domain/services/group-sharing-service.cpp:198-227 | Two arrival orders of the same group replies fill the group cache alike, if each id has one reply |
| `GroupCache.DeliveredOnce` | src/client/domain/services/group-sharing-service.cpp:213-224 | The fan-in hands on all replies, once, when the last one comes |
| `GroupCache.GroupRepository.ReplaceGroupUsers` | src/client/infrastructure/repositories/group-repository.cpp:24-41 | Sort, unique, sort: each id once, only given profiles, by login, for this group only; the valid profiles enter the user cache |
| `GroupCache.EraseRepeated` | src/client/infrastructure/repositories/group-repository.cpp:33-35 | Of neighbours with one id the first stays |
| `GroupCache.ErasedKeepsFirst` | src/client/infrastructure/repositories/group-repository.cpp:31-35 | The first profile of each id in the list sorted by id stays |
| `GroupCache.ErasedIncreases` | src/client/infrastructure/repositories/group-repository.cpp:31-35 | After the sort by id what is left has strictly increasing ids |
| `GroupCache.ErasedElements` | src/client/infrastructure/repositories/group-repository.cpp:33-35 | No id is lost and no profile invented |
| `GroupCache.GroupRepository.ReplaceGroups` | src/client/infrastructure/repositories/group-repository.cpp:13-18 | Exactly the given groups by id |
| `GroupCache.GroupRepository.Groups` | src/client/infrastructure/repositories/group-repository.cpp:61-73 | Every cached group once, by name |
| `GroupCache.GroupSharingService.LoadUsersByIds` | src/client/domain/services/group-sharing-service.cpp:229-252 | A failure is passed on; an empty id list stores and reports an empty list at once, for this group only; else the replies are awaited; nothing else changes |
| `GroupCache.GroupSharingService.LoadGroupsByIds` | src/client/domain/services/group-sharing-service.cpp:174-196 | A failure is passed on; an empty id list empties the group cache and is reported at once; else the replies are awaited; users and member lists never change |
| `GroupCache.GroupSharingService.OnUserReply` | src/client/domain/services/group-sharing-service.cpp:254-279 | A failed look-up becomes an unknown user; the last reply stores and reports the member list of this group and enters the valid profiles; nothing else changes |
| `GroupCache.GroupSharingService.OnGroupReply` | src/client/domain/services/group-sharing-service.cpp:198-227 | A failed look-up becomes an unknown group; the last reply replaces the groups and reports them by name; users and member lists never change |
| `GroupCache.GroupSharingService.OnUserAdded` | src/client/domain/services/group-sharing-service.cpp:87-92 | On success the member list of the old members and the user, and the user cache with the profile; on a failure, and for other groups, nothing changes |
| `GroupCache.GroupSharingService.OnUserRemoved` | src/client/domain/services/group-sharing-service.cpp:115-121 | On success the member list of the old members without the user, whose valid profiles enter the user cache; on a failure, and for other groups, nothing changes |
| `GroupCache.GroupSharingService.OnGroupCreated` | src/client/domain/services/group-sharing-service.cpp:154-168 | On success the group is cached, and its creator is its one member if the creator's profile is known; on a failure nothing changes, and users and other groups are as before |
| `HttpSession.ExactlyOnce` | src/server/infrastructure/http/http-session.cpp:17-88 | In every run in which no handler defers twice: requests read = responses started, plus one while a response is owed or the stream was taken over; an attached session neither reads nor writes another response while one is owed; the guard has dropped nothing; the i-th response is the first one given for the i-th request; a read is outstanding only behind a response that keeps the connection |
| `HttpSession.DuplicateSendsDoNothing` | src/server/infrastructure/http/route-context.cpp:19-29 | After a handle has been used, in no later state does another send on it have any effect |
| `HttpSession.DeferredResponseIsWritten` | src/server/infrastructure/http/http-session.cpp:17-25 | The first deferred response of an attached session is the next one written, for its own request |
| `HttpSession.OneExchange` | src/server/infrastructure/http/http-session.cpp:40-88 | A request handled at once: the reply, or the error response without one, is written, and the session reads on if and only if the write succeeds and that response keeps the connection |
| `HttpSession.NothingAfterEnd` | src/server/infrastructure/http/http-session.cpp:40-88 | After a failed read, the end of the stream, a failed write or a response that does not keep the connection, nothing is read, written or answered in any run |
| `HttpSession.TakenOverIsSilent` | src/server/infrastructure/http/http-session.cpp:46-50 | A request whose handler takes the stream over gets no response: from then on the session neither reads nor writes in any run |
| `HttpSession.TwoHandlesAnswerTwice` | src/server/infrastructure/http/http-session.cpp:17-25 | Whenever a handler defers twice on an attached session the guard does not help: there is a run with two responses to that one request, the second written while the next request is being read |
| `HttpSession.HttpConnection.OnRead` | src/server/infrastructure/http/http-session.cpp:40-63 | Nothing is written when the read fails, the stream was taken over or the response is deferred; else the reply, or the error response without one |
| `HttpSession.HttpConnection.RunSend` | src/server/infrastructure/http/http-session.cpp:17-25 | A posted response is written unless the session is detached or writing |
| `HttpSession.HttpConnection.StartWrite` | src/server/infrastructure/http/http-session.cpp:65-73 | Starts one write and remembers the response's keep-alive flag |
| `HttpSession.HttpConnection.OnWrite` | src/server/infrastructure/http/http-session.cpp:75-88 | Reads on after a successful write of a keep-alive response only |
| `HttpSession.AsyncResponseHandle.SendOnce` | src/server/infrastructure/http/route-context.cpp:19-29 | Only the first call posts |
| `HttpSession.AsyncResponseHandle.RunWork` | src/server/presentation/http/async-dispatch.h:21-28 | The work's response, or the error response if the work throws, is posted unless the handle was used |
| `HttpSession.RouteContext.DeferResponse` | src/server/infrastructure/http/route-context.cpp:42-45 | A fresh unused handle, and the context marked as deferred |
| `QueryString.GetQueryParam` | src/server/presentation/http/json-helpers.h:52-83 | The value of the first pair with the key among the pieces between ampersands, an empty last piece aside |
| `QueryString.LoopMatchesSplitIff` | src/server/presentation/http/json-helpers.h:52-83 | For every target and key that is what a split on the ampersand and the first equals sign finds, if and only if it is not the case that the key is empty, the last piece is empty and no earlier pair has an empty key; so always for a non-empty key |
| `QueryString.LookupInTarget` | src/server/presentation/http/json-helpers.h:52-83 | Looking a key up in a target built from separator-free pairs gives the key's first value, the empty text for a key without an equals sign |
| `HexCodecs.ParseHex` | src/server/infrastructure/security/auth-token-store.h:56-75 | A token exactly for 32 hexadecimal digits, and the token's text is then the lower-cased input |
| `HexCodecs.ToHex` | src/server/infrastructure/security/auth-token-store.h:77-90 | Two lower-case digits per byte |
| `HexCodecs.ParsingUndoesPrinting` | src/server/infrastructure/security/auth-token-store.h:56-90 | Parsing the text of a token gives the token back |
| `HexCodecs.ParsedBytes` | src/server/infrastructure/security/auth-token-store.h:42-75 | Exactly the texts of 32 hexadecimal digits in either case are parsed, and byte i is the value of digits 2i and 2i+1 to base 16 |
| `HexCodecs.TextSpellsBytes` | src/server/infrastructure/security/auth-token-store.h:77-90 | Digits 2i and 2i+1 of a token's text, read to base 16, are byte i |
| `HexCodecs.HexTextInjective` | src/server/infrastructure/security/auth-token-store.h:77-90 | Different tokens have different texts |
| `HexCodecs.SameTokenIff` | src/server/infrastructure/security/auth-token-store.h:42-75 | Two texts stand for the same token if and only if they differ in letter case only |
| `HexCodecs.ResolvesUntilRevoked` | src/server/infrastructure/security/auth-token-store.h:94-130 | An issued token resolves to its user through every run in which its text is not revoked and its bytes are not drawn again, and to nobody once revoked |
| `HexCodecs.AuthTokenStore.IssueToken` | src/server/infrastructure/security/auth-token-store.h:94-104 | The token is entered for the user and its text returned |
| `HexCodecs.AuthTokenStore.ResolveUserId` | src/server/infrastructure/security/auth-token-store.h:106-120 | The user of the token the text stands for, if it is entered |
| `HexCodecs.AuthTokenStore.RevokeToken` | src/server/infrastructure/security/auth-token-store.h:122-130 | Exactly the token the text stands for is removed |
| `HexCodecs.FileStorage.FillAsciiHex` | src/server/infrastructure/file-storage/file-storage.h:53-65 | The countdown loop writes sixteen digits, most significant first, behind the prefix, and a zero; the shared buffer is unchanged |
| `HexCodecs.PathBufferInjective` | src/server/infrastructure/file-storage/file-storage.h:53-65 | Different 64-bit numbers fill the buffer differently |
| `HexCodecs.PathBufferSpellsNumber` | src/server/infrastructure/file-storage/file-storage.h:53-65 | The sixteen digits behind the prefix, read to base 16, are the number; a zero ends them, and the rest of the buffer is as it was |
| `HexCodecs.PathsDistinctIff` | src/server/infrastructure/file-storage/file-storage.h:53-65 | Different numbers give different paths, as the operating system reads them, if and only if the prefix has no zero character |
| `HexCodecs.FileStorage.InitializePrefix` | src/server/main.cpp:58-68 | Refused exactly when prefix, digits and zero do not fit; else the buffer is the prefix and zeros |

## Left out

- SQLite, Boost and Qt internals, weak memory order, restarts, fsync and crash recovery: library or platform behaviour.
- User interface, API clients, JSON readers, response builders, router, argument validation, password hashing: thin or
  branch-by-branch code that would only add easy members.
- Users, groups and access levels on the server: they occur only as the foreign keys and owner groups that files need.
- Version numbers and lease times are unbounded integers: an `int32_t` version or an `int64_t` lease that overflows is not
  modelled. Ids are 64-bit.
- The service and persistence layers have an error enumeration each, mapped one to one; one enumeration stands for both.
  A SQLite error other than a constraint violation occurs only as a commit that throws.
- JSON text is opaque: a serialiser of payloads and an object test are parameters. The theorems from post to client
  assume that what the serialiser prints is an object on one trimmed line or several, and
  `NotificationDelivery.ClientsKnowEvents` that it prints different objects differently.
- The HTTP layer under the client is taken to keep the response header from the parser; the payload is compared as text,
  not as a JSON value.
- `sendComment` has no caller and is not modelled. `EventBus::stop` is modelled only as the worker's stop test: what is
  still queued when the process ends is not delivered, and nothing is claimed about it.
- The standard's byte order mark, `id` and `retry` fields and reconnection are not part of `StandardStream`.
- Waiting on semaphores, mutexes and condition variables is a step that is not enabled; fairness is not modelled.
- `WriteUnitOfWork::close()` on an unfinished unit: no caller does it, so `Close` is called by commit, rollback and
  destructor only. Moving a unit of work is not modelled.
- Exceptions from `new` and from posting a task are not modelled.
- `last + 1` at 2^63-1 is undefined behaviour in C++; the model gives the sum an arbitrary 64-bit value and nothing worse.
- `openRead` and the size of a download are not modelled; `fstat` failing counts as the system refusing.
- StandardAgreement.ClientAgreesIff: names with line ends are left out; the server's five names have none.
- Two list refreshes that overlap each have their own state; that the one finishing last wins is not stated.
- `std::sort` is a method whose contract leaves the order of ties open; hash tables are iterated in any order.
- FileVersionProtocol.InitKeepsInvariant: starts from tables without files, not from an arbitrary database file.
- GroupCache.LoadedUsers: which of several different profiles with one id is kept is left open, as in the source.
- FileLocks.MutualExclusion: a token is fresh by assumption here; that the generator makes it so is `IdGenerator`.
