/** The tables `files`, `file_versions` and `file_acl` as maps from primary key to row, the SQL statements
    the repositories run on them, and the service transactions made of those statements. A transaction is a
    function from tables to `Result<Db>`: on `Err` the unit of work is rolled back, so the tables stay as
    they were. */
module FileTables {
  import opened Outcomes

  type UInt32 = n: int | 0 <= n < 0x1_0000_0000

  datatype File = File(name: string, currentVersionId: int, maxVersionCount: UInt32, createdAt: int, createdBy: int)

  datatype FileVersion = FileVersion(fileId: int, number: int, nameSnapshot: string, path: int, createdAt: int)

  /** `users` maps ids to logins; `groupIds` is the unique index from group name to group id. */
  datatype Db = Db(users: map<int, string>, groupIds: map<string, int>, files: map<int, File>,
                   versions: map<int, FileVersion>, acl: map<(int, int), AclLevel>)

  datatype AclLevel = NoProperty | ReadOnly | ReadWrite

  /** What `createNewVersion` carries from its reads to its write transaction. */
  datatype Ticket = Ticket(fileId: int, file: File, newId: int, number: int, nameSnapshot: string, path: int,
                           createdAt: int)

  /** The conversion of `uint32_t maxVersionCount` to the `int keepLastN` parameter. */
  function AsInt32(n: UInt32): int {
    if n < 0x8000_0000 then n else n - 0x1_0000_0000
  }

  // ------------------------------------------------------------------ schema

  predicate NameTaken(db: Db, name: string, exceptId: int) {
    exists id :: id in db.files && id != exceptId && db.files[id].name == name
  }

  predicate NumberTaken(db: Db, fileId: int, number: int) {
    exists id :: id in db.versions && db.versions[id].fileId == fileId && db.versions[id].number == number
  }

  /** UNIQUE(file_id, version). */
  ghost predicate UniqueNumbers(db: Db) {
    forall i, j | i in db.versions && j in db.versions && db.versions[i].fileId == db.versions[j].fileId
                  && db.versions[i].number == db.versions[j].number :: i == j
  }

  /** UNIQUE(full_logical_name), UNIQUE(file_id, version) and the foreign keys. */
  ghost predicate Schema(db: Db) {
    && (forall i, j | i in db.files && j in db.files && db.files[i].name == db.files[j].name :: i == j)
    && UniqueNumbers(db)
    && (forall i :: i in db.versions ==> db.versions[i].fileId in db.files)
    && (forall i :: i in db.files ==> db.files[i].createdBy in db.users)
    && (forall k :: k in db.acl ==> k.0 in db.files)
  }

  // -------------------------------------------------------------- statements

  function InsertFile(db: Db, id: int, row: File): Result<Db> {
    if id in db.files || NameTaken(db, row.name, id) || row.createdBy !in db.users then Err(Conflict)
    else Ok(db.(files := db.files[id := row]))
  }

  /** Overwrites every column of the row. */
  function UpdateFile(db: Db, id: int, row: File): Result<Db> {
    if id !in db.files then Err(NotFound)
    else if NameTaken(db, row.name, id) || row.createdBy !in db.users then Err(Conflict)
    else Ok(db.(files := db.files[id := row]))
  }

  /** Deletes the row; ON DELETE CASCADE takes its versions and access entries along. */
  function DeleteFile(db: Db, id: int): Result<Db> {
    if id !in db.files then Err(NotFound)
    else Ok(db.(files := db.files - {id},
                versions := map v | v in db.versions && db.versions[v].fileId != id :: db.versions[v],
                acl := map k | k in db.acl && k.0 != id :: db.acl[k]))
  }

  function InsertVersion(db: Db, id: int, row: FileVersion): Result<Db> {
    if id in db.versions || NumberTaken(db, row.fileId, row.number) || row.fileId !in db.files then Err(Conflict)
    else Ok(db.(versions := db.versions[id := row]))
  }

  function RenameVersion(db: Db, id: int, name: string): Result<Db> {
    if id !in db.versions then Err(NotFound)
    else Ok(db.(versions := db.versions[id := db.versions[id].(nameSnapshot := name)]))
  }

  function NewerIds(db: Db, id: int): set<int>
    requires id in db.versions
  {
    set j | j in db.versions && db.versions[j].fileId == db.versions[id].fileId
            && db.versions[j].number > db.versions[id].number
  }

  /** The row is among the first `limit` rows of its file ordered by version number, newest first.
      SQLite reads a negative LIMIT as "no limit". */
  predicate AmongNewest(db: Db, id: int, limit: int)
    requires id in db.versions
  {
    limit < 0 || |NewerIds(db, id)| < limit
  }

  function PruneVersions(db: Db, fileId: int, limit: int): Db {
    db.(versions := map id | id in db.versions && (db.versions[id].fileId != fileId || AmongNewest(db, id, limit))
                      :: db.versions[id])
  }

  function GrantAcl(db: Db, fileId: int, groupId: int, level: AclLevel): Result<Db> {
    if fileId !in db.files then Err(Conflict)
    else Ok(db.(acl := db.acl[(fileId, groupId) := level]))
  }

  function GetFile(db: Db, id: int): Result<File> {
    if id in db.files then Ok(db.files[id]) else Err(NotFound)
  }

  function GetVersion(db: Db, id: int): Result<FileVersion> {
    if id in db.versions then Ok(db.versions[id]) else Err(NotFound)
  }

  // ------------------------------------------------------------ transactions

  function CreateFile(db: Db, fileId: int, versionId: int, name: string, user: int, path: int, maxVersionCount: UInt32,
                      now: int): Result<Db>
  {
    var db1 :- InsertFile(db, fileId, File(name, versionId, maxVersionCount, now, user));
    var db2 :- InsertVersion(db1, versionId, FileVersion(fileId, 1, name, path, now));
    if user !in db2.users then Err(NotFound)
    else if db2.users[user] !in db2.groupIds then Err(NotFound)
    else GrantAcl(db2, fileId, db2.groupIds[db2.users[user]], ReadWrite)
  }

  /** The write transaction of `createNewVersion`: append, overwrite the file row with the one that was read
      before the transaction, prune. */
  function CommitVersion(db: Db, t: Ticket): Result<Db> {
    var db1 :- InsertVersion(db, t.newId, FileVersion(t.fileId, t.number, t.nameSnapshot, t.path, t.createdAt));
    var db2 :- UpdateFile(db1, t.fileId, t.file.(currentVersionId := t.newId));
    Ok(PruneVersions(db2, t.fileId, AsInt32(t.file.maxVersionCount)))
  }

  function RenameFile(db: Db, fileId: int, name: string): Result<Db> {
    var file :- GetFile(db, fileId);
    var db1 :- RenameVersion(db, file.currentVersionId, name);
    UpdateFile(db1, fileId, file.(name := name))
  }

  function GetCurrentVersion(db: Db, fileId: int): Result<FileVersion> {
    var file :- GetFile(db, fileId);
    GetVersion(db, file.currentVersionId)
  }

  /** The tables after a transaction: the new ones on success, the old ones after the rollback. */
  function After(db: Db, r: Result<Db>): Db {
    if r.Ok? then r.value else db
  }

  // ------------------------------------------------------------ the file services, said by rows

  /** Accounts, the other files and their access entries are as before. */
  ghost predicate OthersKept(db: Db, db': Db, f: int) {
    && db'.users == db.users && db'.groupIds == db.groupIds
    && (forall g | g in db.files && g != f :: g in db'.files && db'.files[g] == db.files[g])
    && (forall k | k in db.acl && k.0 != f :: k in db'.acl && db'.acl[k] == db.acl[k])
  }

  /** A file is created exactly if both ids and the name are free, the creator is a user, and the group named after the
      creator exists; then the file row, version 1 under the same name and time, and read-write access of that group are
      new, and nothing else changes. NotFound exactly if only that group is missing. */
  lemma FileCreated(db: Db, f: int, v: int, name: string, user: int, path: int, bound: UInt32, now: int)
    requires Schema(db)
    ensures var r := CreateFile(db, f, v, name, user, path, bound, now);
            var fits := && f !in db.files && v !in db.versions && user in db.users
                        && forall g | g in db.files :: db.files[g].name != name;
            && (r.Ok? <==> fits && db.users[user] in db.groupIds)
            && (r.Err? ==> r.error == if fits then NotFound else Conflict)
            && (r.Ok? ==>
                  && r.value.files.Keys == db.files.Keys + {f} && r.value.files[f] == File(name, v, bound, now, user)
                  && r.value.versions == db.versions[v := FileVersion(f, 1, name, path, now)]
                  && r.value.acl == db.acl[(f, db.groupIds[db.users[user]]) := ReadWrite]
                  && OthersKept(db, r.value, f))
  {
  }

  /** Deleting a file takes its row, its versions and its access entries, all of them, and nothing of any other file. */
  lemma FileDeleted(db: Db, f: int)
    ensures var r := DeleteFile(db, f);
            && (r.Ok? <==> f in db.files) && (r.Err? ==> r.error == NotFound)
            && (r.Ok? ==>
                  && r.value.files.Keys == db.files.Keys - {f} && OthersKept(db, r.value, f)
                  && (forall k | k in r.value.acl :: k in db.acl && k.0 != f)
                  && (forall v :: v in r.value.versions <==> v in db.versions && db.versions[v].fileId != f)
                  && (forall v | v in r.value.versions :: r.value.versions[v] == db.versions[v]))
  {
  }

  /** A file is renamed exactly if it is there with its current version and no other file has the name; then its name and
      the name snapshot of its current version are the new one, and nothing else changes. */
  lemma FileRenamed(db: Db, f: int, name: string)
    requires Schema(db)
    ensures var r := RenameFile(db, f, name);
            var found := f in db.files && db.files[f].currentVersionId in db.versions;
            && (r.Ok? <==> found && forall g | g in db.files && g != f :: db.files[g].name != name)
            && (r.Err? ==> r.error == if found then Conflict else NotFound)
            && (r.Ok? ==>
                  var v := db.files[f].currentVersionId;
                  && r.value.files.Keys == db.files.Keys && r.value.versions.Keys == db.versions.Keys
                  && r.value.files[f].name == name && r.value.files[f].(name := db.files[f].name) == db.files[f]
                  && r.value.versions[v].nameSnapshot == name
                  && r.value.versions[v].(nameSnapshot := db.versions[v].nameSnapshot) == db.versions[v]
                  && (forall i | i in db.versions && i != v :: r.value.versions[i] == db.versions[i])
                  && r.value.acl == db.acl && OthersKept(db, r.value, f))
  {
  }
}
