/** The same tables as mutable state: the repositories' statements change them in place, the services wrap the
    statements in a unit of work that restores the saved tables when it is left without a commit. Every method
    is tied to the transaction functions of `FileTables`. */
module FileDatabase {
  import opened Outcomes
  import opened FileTables
  import opened Pruning

  /** The rows are stored and their numbers strictly increase. */
  ghost predicate Ascending(db: Db, ids: seq<int>) {
    && (forall a | 0 <= a < |ids| :: ids[a] in db.versions)
    && (forall a, b | 0 <= a < b < |ids| :: db.versions[ids[a]].number < db.versions[ids[b]].number)
  }

  class Tables {
    var users: map<int, string>
    var groupIds: map<string, int>
    var files: map<int, File>
    var versions: map<int, FileVersion>
    var acl: map<(int, int), AclLevel>
    var saved: Option<Db>

    function Value(): Db
      reads this
    {
      Db(users, groupIds, files, versions, acl)
    }

    constructor (users: map<int, string>, groupIds: map<string, int>)
      ensures Value() == Db(users, groupIds, map[], map[], map[]) && saved == None
    {
      this.users, this.groupIds := users, groupIds;
      files, versions, acl, saved := map[], map[], map[], None;
    }

    // ---------------------------------------------------------- unit of work

    method Begin()
      requires saved == None
      modifies this`saved
      ensures saved == Some(Value())
    {
      saved := Some(Value());
    }

    method Commit()
      modifies this`saved
      ensures saved == None
    {
      saved := None;
    }

    method Rollback()
      requires saved.Some?
      modifies this
      ensures saved == None && Value() == old(saved).value
    {
      var Db(u, g, f, v, a) := saved.value;
      users, groupIds, files, versions, acl, saved := u, g, f, v, a, None;
    }

    // ---------------------------------------------------------- statements

    method CreateFileRow(id: int, row: File) returns (r: Result<()>)
      modifies this`files
      ensures Value() == After(old(Value()), InsertFile(old(Value()), id, row))
      ensures if r.Ok? then InsertFile(old(Value()), id, row).Ok? else InsertFile(old(Value()), id, row) == Err(r.error)
      ensures r.Ok? <==> id !in old(files) && row.createdBy in users
                         && forall i | i in old(files) :: old(files)[i].name != row.name
      ensures r.Err? ==> r.error == Conflict
      ensures files == if r.Ok? then old(files)[id := row] else old(files)
    {
      if id in files || NameTaken(Value(), row.name, id) || row.createdBy !in users {
        return Err(Conflict);
      }
      files := files[id := row];
      return Ok(());
    }

    method UpdateFileRow(id: int, row: File) returns (r: Result<()>)
      modifies this`files
      ensures Value() == After(old(Value()), UpdateFile(old(Value()), id, row))
      ensures if r.Ok? then UpdateFile(old(Value()), id, row).Ok? else UpdateFile(old(Value()), id, row) == Err(r.error)
      ensures r.Ok? <==> id in old(files) && row.createdBy in users
                         && forall i | i in old(files) && i != id :: old(files)[i].name != row.name
      ensures r.Err? ==> r.error == if id in old(files) then Conflict else NotFound
      ensures files == if r.Ok? then old(files)[id := row] else old(files)
    {
      if id !in files {
        return Err(NotFound);
      }
      if NameTaken(Value(), row.name, id) || row.createdBy !in users {
        return Err(Conflict);
      }
      files := files[id := row];
      return Ok(());
    }

    method RemoveFileRow(id: int) returns (r: Result<()>)
      modifies this`files, this`versions, this`acl
      ensures Value() == After(old(Value()), DeleteFile(old(Value()), id))
      ensures if r.Ok? then DeleteFile(old(Value()), id).Ok? else DeleteFile(old(Value()), id) == Err(r.error)
    {
      if id !in files {
        return Err(NotFound);
      }
      files := files - {id};
      versions := map v | v in versions && versions[v].fileId != id :: versions[v];
      acl := map k | k in acl && k.0 != id :: acl[k];
      return Ok(());
    }

    method AddVersion(id: int, row: FileVersion) returns (r: Result<()>)
      modifies this`versions
      ensures Value() == After(old(Value()), InsertVersion(old(Value()), id, row))
      ensures if r.Ok? then InsertVersion(old(Value()), id, row).Ok?
              else InsertVersion(old(Value()), id, row) == Err(r.error)
      ensures r.Ok? <==> id !in old(versions) && row.fileId in files
                         && forall i | i in old(versions) && old(versions)[i].fileId == row.fileId ::
                              old(versions)[i].number != row.number
      ensures r.Err? ==> r.error == Conflict
      ensures versions == if r.Ok? then old(versions)[id := row] else old(versions)
    {
      if id in versions || NumberTaken(Value(), row.fileId, row.number) || row.fileId !in files {
        return Err(Conflict);
      }
      versions := versions[id := row];
      return Ok(());
    }

    method UpdateVersionName(id: int, name: string) returns (r: Result<()>)
      modifies this`versions
      ensures Value() == After(old(Value()), RenameVersion(old(Value()), id, name))
      ensures if r.Ok? then RenameVersion(old(Value()), id, name).Ok?
              else RenameVersion(old(Value()), id, name) == Err(r.error)
      ensures r == if id in old(versions) then Ok(()) else Err(NotFound)
      ensures r.Ok? ==> versions == old(versions)[id := old(versions)[id].(nameSnapshot := name)]
    {
      if id !in versions {
        return Err(NotFound);
      }
      versions := versions[id := versions[id].(nameSnapshot := name)];
      return Ok(());
    }

    method RemoveOldVersions(fileId: int, keepLastN: int)
      modifies this`versions
      ensures Value() == PruneVersions(old(Value()), fileId, keepLastN)
      ensures UniqueNumbers(old(Value())) ==> NewestKept(old(Value()), Value(), fileId, keepLastN)
    {
      ghost var before := Value();
      versions := map id | id in versions && (versions[id].fileId != fileId || AmongNewest(Value(), id, keepLastN))
                  :: versions[id];
      if UniqueNumbers(before) {
        PruneKeepsNewest(before, fileId, keepLastN);
      }
    }

    /** The rows of a file, oldest first: exactly its versions, by strictly increasing number. */
    method GetVersions(fileId: int) returns (ids: seq<int>)
      requires UniqueNumbers(Value())
      ensures forall i :: i in ids <==> i in versions && versions[i].fileId == fileId
      ensures Ascending(Value(), ids)
    {
      ids := [];
      var left := set i | i in versions && versions[i].fileId == fileId;
      while left != {}
        invariant forall i | i in left :: i in versions && versions[i].fileId == fileId
        invariant forall i :: i in versions && versions[i].fileId == fileId <==> i in left || i in ids
        invariant Ascending(Value(), ids)
        invariant forall a | 0 <= a < |ids| :: forall i | i in left :: versions[ids[a]].number < versions[i].number
        decreases left
      {
        var next := Oldest(left);
        ids := ids + [next];
        left := left - {next};
      }
    }

    method Oldest(left: set<int>) returns (id: int)
      requires left != {} && forall i | i in left :: i in versions
      ensures id in left && forall i | i in left :: versions[id].number <= versions[i].number
    {
      ghost var witnessed := SomeElement(left);
      id :| id in left;
      var rest := left - {id};
      while rest != {}
        invariant id in left && rest <= left
        invariant forall i | i in left - rest :: versions[id].number <= versions[i].number
        decreases rest
      {
        ghost var witnessed := SomeElement(rest);
        var i :| i in rest;
        if versions[i].number < versions[id].number {
          id := i;
        }
        rest := rest - {i};
      }
    }

    // ---------------------------------------------------------- services

    method GetCurrentVersion(fileId: int) returns (r: Result<FileVersion>)
      ensures r == FileTables.GetCurrentVersion(Value(), fileId)
    {
      if fileId !in files {
        return Err(NotFound);
      }
      var versionId := files[fileId].currentVersionId;
      if versionId !in versions {
        return Err(NotFound);
      }
      return Ok(versions[versionId]);
    }

    /** The write unit of work of `createNewVersion`. */
    method WriteVersion(t: Ticket) returns (r: Result<int>)
      requires saved == None
      modifies this
      ensures saved == None && Value() == After(old(Value()), CommitVersion(old(Value()), t))
      ensures r == if CommitVersion(old(Value()), t).Ok? then Ok(t.newId) else Err(CommitVersion(old(Value()), t).error)
    {
      Begin();
      var added := AddVersion(t.newId, FileVersion(t.fileId, t.number, t.nameSnapshot, t.path, t.createdAt));
      if added.Err? {
        Rollback();
        return Err(added.error);
      }
      var file := t.file.(currentVersionId := t.newId);
      var updated := UpdateFileRow(t.fileId, file);
      if updated.Err? {
        Rollback();
        return Err(updated.error);
      }
      RemoveOldVersions(t.fileId, AsInt32(file.maxVersionCount));
      Commit();
      return Ok(t.newId);
    }

    method CreateFile(fileId: int, versionId: int, name: string, user: int, path: int, maxVersionCount: UInt32, now: int)
      returns (r: Result<int>)
      requires saved == None
      modifies this
      ensures var after := FileTables.CreateFile(old(Value()), fileId, versionId, name, user, path, maxVersionCount, now);
              && saved == None && Value() == After(old(Value()), after)
              && r == if after.Ok? then Ok(fileId) else Err(after.error)
    {
      Begin();
      var created := CreateFileRow(fileId, File(name, versionId, maxVersionCount, now, user));
      if created.Err? {
        Rollback();
        return Err(created.error);
      }
      var added := AddVersion(versionId, FileVersion(fileId, 1, name, path, now));
      if added.Err? {
        Rollback();
        return Err(added.error);
      }
      if user !in users || users[user] !in groupIds {
        Rollback();
        return Err(NotFound);
      }
      // The file row is there: it was inserted by this transaction, so the grant's foreign key holds.
      acl := acl[(fileId, groupIds[users[user]]) := ReadWrite];
      Commit();
      return Ok(fileId);
    }

    method Rename(fileId: int, name: string) returns (r: Result<()>)
      requires saved == None
      modifies this
      ensures saved == None && Value() == After(old(Value()), RenameFile(old(Value()), fileId, name))
      ensures if r.Ok? then RenameFile(old(Value()), fileId, name).Ok?
              else RenameFile(old(Value()), fileId, name) == Err(r.error)
    {
      Begin();
      if fileId !in files {
        Rollback();
        return Err(NotFound);
      }
      var file := files[fileId];
      r := UpdateVersionName(file.currentVersionId, name);
      if r.Err? {
        Rollback();
        return;
      }
      file := file.(name := name);
      r := UpdateFileRow(fileId, file);
      if r.Err? {
        Rollback();
        return;
      }
      Commit();
    }

    method Remove(fileId: int) returns (r: Result<()>)
      requires saved == None
      modifies this
      ensures saved == None && Value() == After(old(Value()), DeleteFile(old(Value()), fileId))
      ensures if r.Ok? then DeleteFile(old(Value()), fileId).Ok? else DeleteFile(old(Value()), fileId) == Err(r.error)
    {
      Begin();
      r := RemoveFileRow(fileId);
      if r.Err? {
        Rollback();
        return;
      }
      Commit();
    }
  }
}
