/** Where the rows come from: in every run each stored row, and each row a call carries, is made of what was supplied to
    and read by the steps of its own creation. */
module FileVersionHistory {
  import opened Outcomes
  import opened FileTables
  import opened Runs
  import opened FileVersionProtocol

  ghost function DbAt(s0: State, steps: seq<Step>, i: nat): Db
    requires i <= |steps|
  {
    StateAt(Next, s0, steps, i).db
  }

  /** Step `i` created file `f` with this first version, user, bound and time. */
  ghost predicate CreatedAt(s0: State, steps: seq<Step>, i: nat, f: int, v: int, path: int, user: int, bound: UInt32,
                            now: int)
  {
    && i < |steps| && steps[i].Create?
    && steps[i] == Create(f, v, steps[i].name, user, path, bound, now)
    && f !in DbAt(s0, steps, i).files && CreateFile(DbAt(s0, steps, i), f, v, steps[i].name, user, path, bound, now).Ok?
  }

  /** The name was given to file `f` by its creation or by a rename. */
  ghost predicate NameGiven(steps: seq<Step>, f: int, name: string) {
    exists i | 0 <= i < |steps| ::
      (steps[i].Create? && steps[i].fileId == f && steps[i].name == name) || steps[i] == Rename(f, name)
  }

  /** Creator, bound and time of a file row are those of the file's creation; its name was given to it. */
  ghost predicate FileFrom(s0: State, steps: seq<Step>, f: int, file: File) {
    && NameGiven(steps, f, file.name)
    && exists i: nat, v, path :: CreatedAt(s0, steps, i, f, v, path, file.createdBy, file.maxVersionCount, file.createdAt)
  }

  /** Step `i` is the first read of call `c`, and found this row. */
  ghost predicate ReadAt(s0: State, steps: seq<Step>, i: nat, c: int, f: int, file: File) {
    && i < |steps| && steps[i] == ReadFile(c, f)
    && f in DbAt(s0, steps, i).files && DbAt(s0, steps, i).files[f] == file
  }

  /** Step `i` is the second read of call `c`: the ticket has what the caller supplied, and the number after the one read. */
  ghost predicate TicketAt(s0: State, steps: seq<Step>, i: nat, c: int, t: Ticket) {
    && i < |steps| && steps[i] == ReadVersion(c, t.newId, t.nameSnapshot, t.path, t.createdAt)
    && t.file.currentVersionId in DbAt(s0, steps, i).versions
    && t.number == DbAt(s0, steps, i).versions[t.file.currentVersionId].number + 1
  }

  ghost predicate BothReads(s0: State, steps: seq<Step>, i: nat, j: nat, c: int, t: Ticket) {
    i < j && ReadAt(s0, steps, i, c, t.fileId, t.file) && TicketAt(s0, steps, j, c, t)
  }

  /** A call in flight carries what its own reads found and its caller supplied. */
  ghost predicate CallFrom(s0: State, steps: seq<Step>, c: int, phase: Phase) {
    match phase
    case FileRead(f, file) => FileFrom(s0, steps, f, file) && exists i: nat :: ReadAt(s0, steps, i, c, f, file)
    case Ready(t) => FileFrom(s0, steps, t.fileId, t.file) && exists i: nat, j: nat :: BothReads(s0, steps, i, j, c, t)
  }

  /** Step `k` wrote version row `id` of the ticket. */
  ghost predicate WrittenAt(s0: State, steps: seq<Step>, k: nat, c: int, id: int, t: Ticket) {
    && k < |steps| && steps[k] == Write(c) && t.newId == id
    && exists i: nat, j: nat :: j < k && BothReads(s0, steps, i, j, c, t)
  }

  /** The row is the first one of its file, as created, under a name given to the file. */
  ghost predicate FirstFrom(s0: State, steps: seq<Step>, id: int, row: FileVersion) {
    && row.number == 1 && NameGiven(steps, row.fileId, row.nameSnapshot)
    && exists i: nat, user, bound :: CreatedAt(s0, steps, i, row.fileId, id, row.path, user, bound, row.createdAt)
  }

  /** The row is what a call wrote from its ticket, under the supplied name snapshot or a name given to its file. */
  ghost predicate WrittenFrom(s0: State, steps: seq<Step>, id: int, row: FileVersion) {
    exists k: nat, c, t ::
      && WrittenAt(s0, steps, k, c, id, t)
      && row == FileVersion(t.fileId, t.number, row.nameSnapshot, t.path, t.createdAt)
      && (row.nameSnapshot == t.nameSnapshot || NameGiven(steps, t.fileId, row.nameSnapshot))
  }

  ghost predicate VersionFrom(s0: State, steps: seq<Step>, id: int, row: FileVersion) {
    FirstFrom(s0, steps, id, row) || WrittenFrom(s0, steps, id, row)
  }

  ghost predicate History(s0: State, steps: seq<Step>, s: State) {
    && (forall f | f in s.db.files :: FileFrom(s0, steps, f, s.db.files[f]))
    && (forall id | id in s.db.versions :: VersionFrom(s0, steps, id, s.db.versions[id]))
    && (forall c | c in s.calls :: CallFrom(s0, steps, c, s.calls[c].phase))
  }

  // ------------------------------------------------------------ one more step

  lemma NameStays(steps: seq<Step>, step: Step, f: int, name: string)
    requires NameGiven(steps, f, name)
    ensures NameGiven(steps + [step], f, name)
  {
    var i :| 0 <= i < |steps| &&
             ((steps[i].Create? && steps[i].fileId == f && steps[i].name == name) || steps[i] == Rename(f, name));
    assert (steps + [step])[i] == steps[i];
  }

  lemma FileStays(s0: State, steps: seq<Step>, step: Step, f: int, file: File)
    requires FileFrom(s0, steps, f, file)
    ensures FileFrom(s0, steps + [step], f, file)
  {
    NameStays(steps, step, f, file.name);
    RunOneMore(Next, s0, steps, step);
    var i: nat, v, path :| CreatedAt(s0, steps, i, f, v, path, file.createdBy, file.maxVersionCount, file.createdAt);
    assert CreatedAt(s0, steps + [step], i, f, v, path, file.createdBy, file.maxVersionCount, file.createdAt);
  }

  lemma ReadsStay(s0: State, steps: seq<Step>, step: Step, i: nat, j: nat, c: int, t: Ticket)
    requires BothReads(s0, steps, i, j, c, t)
    ensures BothReads(s0, steps + [step], i, j, c, t)
  {
    RunOneMore(Next, s0, steps, step);
  }

  lemma CallStays(s0: State, steps: seq<Step>, step: Step, c: int, phase: Phase)
    requires CallFrom(s0, steps, c, phase)
    ensures CallFrom(s0, steps + [step], c, phase)
  {
    RunOneMore(Next, s0, steps, step);
    match phase {
      case FileRead(f, file) =>
        FileStays(s0, steps, step, f, file);
        var i: nat :| ReadAt(s0, steps, i, c, f, file);
        assert ReadAt(s0, steps + [step], i, c, f, file);
      case Ready(t) =>
        FileStays(s0, steps, step, t.fileId, t.file);
        var i: nat, j: nat :| BothReads(s0, steps, i, j, c, t);
        ReadsStay(s0, steps, step, i, j, c, t);
    }
  }

  lemma FirstStays(s0: State, steps: seq<Step>, step: Step, id: int, row: FileVersion, name: string)
    requires FirstFrom(s0, steps, id, row) && (name == row.nameSnapshot || step == Rename(row.fileId, name))
    ensures FirstFrom(s0, steps + [step], id, row.(nameSnapshot := name))
  {
    RunOneMore(Next, s0, steps, step);
    LastNameGiven(steps, step, row.fileId, row.nameSnapshot, name);
    var i: nat, user, bound :| CreatedAt(s0, steps, i, row.fileId, id, row.path, user, bound, row.createdAt);
    assert CreatedAt(s0, steps + [step], i, row.fileId, id, row.path, user, bound, row.createdAt);
  }

  lemma LastNameGiven(steps: seq<Step>, step: Step, f: int, before: string, name: string)
    requires NameGiven(steps, f, before) || step == Rename(f, name)
    requires name == before || step == Rename(f, name)
    ensures NameGiven(steps + [step], f, name)
  {
    assert (steps + [step])[|steps|] == step;
    if step != Rename(f, name) {
      NameStays(steps, step, f, name);
    }
  }

  lemma WriterStays(s0: State, steps: seq<Step>, step: Step, k: nat, c: int, id: int, t: Ticket)
    requires WrittenAt(s0, steps, k, c, id, t)
    ensures WrittenAt(s0, steps + [step], k, c, id, t)
  {
    var i: nat, j: nat :| j < k && BothReads(s0, steps, i, j, c, t);
    ReadsStay(s0, steps, step, i, j, c, t);
  }

  lemma WrittenStays(s0: State, steps: seq<Step>, step: Step, id: int, row: FileVersion, name: string)
    requires WrittenFrom(s0, steps, id, row) && (name == row.nameSnapshot || step == Rename(row.fileId, name))
    ensures WrittenFrom(s0, steps + [step], id, row.(nameSnapshot := name))
  {
    var k: nat, c, t :|
      && WrittenAt(s0, steps, k, c, id, t)
      && row == FileVersion(t.fileId, t.number, row.nameSnapshot, t.path, t.createdAt)
      && (row.nameSnapshot == t.nameSnapshot || NameGiven(steps, t.fileId, row.nameSnapshot));
    WriterStays(s0, steps, step, k, c, id, t);
    if name != t.nameSnapshot {
      LastNameGiven(steps, step, t.fileId, row.nameSnapshot, name);
    }
  }

  /** The same row, or the row under a name its file is given now. */
  lemma VersionStays(s0: State, steps: seq<Step>, step: Step, id: int, row: FileVersion, name: string)
    requires VersionFrom(s0, steps, id, row) && (name == row.nameSnapshot || step == Rename(row.fileId, name))
    ensures VersionFrom(s0, steps + [step], id, row.(nameSnapshot := name))
  {
    if FirstFrom(s0, steps, id, row) {
      FirstStays(s0, steps, step, id, row, name);
    } else {
      WrittenStays(s0, steps, step, id, row, name);
    }
  }

  /** The rows and calls of the new state, but for file row `f`, version row `v` and call `c`, are old ones. */
  ghost predicate OthersStay(s: State, s': State, f: int, v: int, c: int) {
    && (forall g | g in s'.db.files && g != f :: g in s.db.files && s'.db.files[g] == s.db.files[g])
    && (forall id | id in s'.db.versions && id != v :: id in s.db.versions && s'.db.versions[id] == s.db.versions[id])
    && (forall d | d in s'.calls && d != c :: d in s.calls && s'.calls[d].phase == s.calls[d].phase)
  }

  /** A step that touches at most one file row, one version row and one call. */
  lemma HistoryGrows(s0: State, steps: seq<Step>, step: Step, s: State, s': State, f: int, v: int, c: int)
    requires History(s0, steps, s) && OthersStay(s, s', f, v, c)
    requires f in s'.db.files && (f in s.db.files ==> s'.db.files[f] != s.db.files[f]) ==>
               FileFrom(s0, steps + [step], f, s'.db.files[f])
    requires v in s'.db.versions && (v in s.db.versions ==> s'.db.versions[v] != s.db.versions[v]) ==>
               VersionFrom(s0, steps + [step], v, s'.db.versions[v])
    requires c in s'.calls && (c in s.calls ==> s'.calls[c].phase != s.calls[c].phase) ==>
               CallFrom(s0, steps + [step], c, s'.calls[c].phase)
    ensures History(s0, steps + [step], s')
  {
    forall g | g in s'.db.files && g in s.db.files && s'.db.files[g] == s.db.files[g]
      ensures FileFrom(s0, steps + [step], g, s'.db.files[g])
    {
      FileStays(s0, steps, step, g, s.db.files[g]);
    }
    forall id | id in s'.db.versions && id in s.db.versions && s'.db.versions[id] == s.db.versions[id]
      ensures VersionFrom(s0, steps + [step], id, s'.db.versions[id])
    {
      VersionStays(s0, steps, step, id, s.db.versions[id], s.db.versions[id].nameSnapshot);
    }
    forall d | d in s'.calls && d in s.calls && s'.calls[d].phase == s.calls[d].phase
      ensures CallFrom(s0, steps + [step], d, s'.calls[d].phase)
    {
      CallStays(s0, steps, step, d, s.calls[d].phase);
    }
  }

  /** The last step is taken in the state the run before it ends in. */
  lemma LastStep(s0: State, steps: seq<Step>, step: Step)
    ensures (steps + [step])[|steps|] == step && DbAt(s0, steps + [step], |steps|) == Run(Next, s0, steps).db
  {
    RunOneMore(Next, s0, steps, step);
    assert steps[..|steps|] == steps;
  }

  lemma CreateExtends(s0: State, steps: seq<Step>, step: Step)
    requires History(s0, steps, Run(Next, s0, steps)) && step.Create?
    ensures History(s0, steps + [step], Next(Run(Next, s0, steps), step))
  {
    var s, all := Run(Next, s0, steps), steps + [step];
    var s', f, v := Next(s, step), step.fileId, step.versionId;
    if s'.db != s.db {
      LastStep(s0, steps, step);
      assert NameGiven(all, f, step.name);
      assert CreatedAt(s0, all, |steps|, f, v, step.path, step.user, step.maxVersionCount, step.now);
      assert s'.db.files == s.db.files[f := File(step.name, v, step.maxVersionCount, step.now, step.user)];
      assert s'.db.versions == s.db.versions[v := FileVersion(f, 1, step.name, step.path, step.now)];
    }
    HistoryGrows(s0, steps, step, s, s', f, v, 0);
  }

  lemma ReadFileExtends(s0: State, steps: seq<Step>, step: Step)
    requires History(s0, steps, Run(Next, s0, steps)) && step.ReadFile?
    ensures History(s0, steps + [step], Next(Run(Next, s0, steps), step))
  {
    var s, f := Run(Next, s0, steps), step.fileId;
    if f in s.db.files {
      LastStep(s0, steps, step);
      FileStays(s0, steps, step, f, s.db.files[f]);
      assert ReadAt(s0, steps + [step], |steps|, step.caller, f, s.db.files[f]);
    }
    HistoryGrows(s0, steps, step, s, Next(s, step), f, 0, step.caller);
  }

  lemma TicketExtends(s0: State, steps: seq<Step>, step: Step, c: int, t: Ticket)
    requires CallFrom(s0, steps, c, FileRead(t.fileId, t.file)) && TicketAt(s0, steps + [step], |steps|, c, t)
    ensures CallFrom(s0, steps + [step], c, Ready(t))
  {
    var i: nat :| ReadAt(s0, steps, i, c, t.fileId, t.file);
    RunOneMore(Next, s0, steps, step);
    FileStays(s0, steps, step, t.fileId, t.file);
    assert BothReads(s0, steps + [step], i, |steps|, c, t);
  }

  lemma ReadVersionExtends(s0: State, steps: seq<Step>, step: Step)
    requires History(s0, steps, Run(Next, s0, steps)) && step.ReadVersion?
    ensures History(s0, steps + [step], Next(Run(Next, s0, steps), step))
  {
    var s, c := Run(Next, s0, steps), step.caller;
    var s' := Next(s, step);
    if c in s'.calls && s'.calls[c] != s.calls[c] {
      LastStep(s0, steps, step);
      TicketExtends(s0, steps, step, c, s'.calls[c].phase.ticket);
    }
    HistoryGrows(s0, steps, step, s, s', 0, 0, c);
  }

  lemma WrittenNow(s0: State, steps: seq<Step>, step: Step, t: Ticket)
    requires step.Write? && CallFrom(s0, steps, step.caller, Ready(t))
    ensures FileFrom(s0, steps + [step], t.fileId, t.file.(currentVersionId := t.newId))
    ensures VersionFrom(s0, steps + [step], t.newId, FileVersion(t.fileId, t.number, t.nameSnapshot, t.path, t.createdAt))
  {
    FileStays(s0, steps, step, t.fileId, t.file);
    var i: nat, j: nat :| BothReads(s0, steps, i, j, step.caller, t);
    ReadsStay(s0, steps, step, i, j, step.caller, t);
    assert WrittenAt(s0, steps + [step], |steps|, step.caller, t.newId, t);
  }

  /** The write transaction leaves no other rows than those before it and its own two. */
  lemma CommittedRows(db: Db, t: Ticket)
    requires CommitVersion(db, t).Ok?
    ensures var db' := CommitVersion(db, t).value;
            && db'.files == db.files[t.fileId := t.file.(currentVersionId := t.newId)]
            && forall id | id in db'.versions ::
                 if id == t.newId then db'.versions[id] == FileVersion(t.fileId, t.number, t.nameSnapshot, t.path, t.createdAt)
                 else id in db.versions && db'.versions[id] == db.versions[id]
  {
  }

  lemma WriteExtends(s0: State, steps: seq<Step>, c: int)
    requires History(s0, steps, Run(Next, s0, steps))
    ensures History(s0, steps + [Write(c)], Next(Run(Next, s0, steps), Write(c)))
  {
    var s := Run(Next, s0, steps);
    if c in s.calls && s.calls[c].phase.Ready? && CommitVersion(s.db, s.calls[c].phase.ticket).Ok? {
      var t := s.calls[c].phase.ticket;
      WrittenNow(s0, steps, Write(c), t);
      CommittedRows(s.db, t);
      HistoryGrows(s0, steps, Write(c), s, Next(s, Write(c)), t.fileId, t.newId, c);
    } else {
      HistoryGrows(s0, steps, Write(c), s, Next(s, Write(c)), 0, 0, c);
    }
  }

  lemma RenamedNow(s0: State, steps: seq<Step>, f: int, name: string, file: File, v: int, row: FileVersion)
    requires FileFrom(s0, steps, f, file) && VersionFrom(s0, steps, v, row) && row.fileId == f
    ensures FileFrom(s0, steps + [Rename(f, name)], f, file.(name := name))
    ensures VersionFrom(s0, steps + [Rename(f, name)], v, row.(nameSnapshot := name))
  {
    VersionStays(s0, steps, Rename(f, name), v, row, name);
    FileStays(s0, steps, Rename(f, name), f, file);
    LastNameGiven(steps, Rename(f, name), f, file.name, name);
  }

  lemma RenameExtends(s0: State, steps: seq<Step>, f: int, name: string)
    requires History(s0, steps, Run(Next, s0, steps)) && OwnCurrent(Run(Next, s0, steps))
    ensures History(s0, steps + [Rename(f, name)], Next(Run(Next, s0, steps), Rename(f, name)))
  {
    var s := Run(Next, s0, steps);
    var v := if f in s.db.files then s.db.files[f].currentVersionId else 0;
    if RenameFile(s.db, f, name).Ok? {
      RenamedTables(s.db, f, name);
      RenamedNow(s0, steps, f, name, s.db.files[f], v, s.db.versions[v]);
    }
    HistoryGrows(s0, steps, Rename(f, name), s, Next(s, Rename(f, name)), f, v, 0);
  }

  // ------------------------------------------------------------ a file's current version is one of its own

  ghost predicate OwnCurrent(s: State) {
    && Schema(s.db) && IdsOk(s)
    && forall f | f in s.db.files && s.db.files[f].currentVersionId in s.db.versions ::
         s.db.versions[s.db.files[f].currentVersionId].fileId == f
  }

  lemma CreateKeepsOwn(s: State, step: Step)
    requires OwnCurrent(s) && step.Create?
    ensures OwnCurrent(Next(s, step))
  {
    CreateKeepsIds(s, step);
    CreateKeepsSchema(s, step);
    if Next(s, step).db != s.db {
      CreatedTables(s.db, step.fileId, step.versionId, step.name, step.user, step.path, step.maxVersionCount, step.now);
    }
  }

  lemma WriteKeepsOwn(s: State, c: int)
    requires OwnCurrent(s) && c in s.calls && s.calls[c].phase.Ready? && CommitVersion(s.db, s.calls[c].phase.ticket).Ok?
    ensures OwnCurrent(Next(s, Write(c)))
  {
    WriteKeepsIds(s, c);
    CommitKeepsSchema(s.db, s.calls[c].phase.ticket);
    CommittedRows(s.db, s.calls[c].phase.ticket);
  }

  lemma RenameKeepsOwn(s: State, f: int, name: string)
    requires OwnCurrent(s)
    ensures OwnCurrent(Next(s, Rename(f, name)))
  {
    if RenameFile(s.db, f, name).Ok? {
      RenamedTables(s.db, f, name);
    }
  }

  lemma ReadKeepsOwn(s: State, step: Step)
    requires OwnCurrent(s) && (step.ReadFile? || step.ReadVersion?)
    ensures OwnCurrent(Next(s, step))
  {
  }

  lemma StepKeepsOwn(s: State, step: Step)
    requires OwnCurrent(s)
    ensures OwnCurrent(Next(s, step))
  {
    match step {
      case Create(_, _, _, _, _, _, _) => CreateKeepsOwn(s, step);
      case ReadFile(_, _) => ReadKeepsOwn(s, step);
      case ReadVersion(_, _, _, _, _) => ReadKeepsOwn(s, step);
      case Write(c) =>
        if c in s.calls && s.calls[c].phase.Ready? && CommitVersion(s.db, s.calls[c].phase.ticket).Ok? {
          WriteKeepsOwn(s, c);
        }
      case Rename(f, name) => RenameKeepsOwn(s, f, name);
      case _ =>
    }
  }

  // ------------------------------------------------------------ whole runs

  lemma StepExtends(s0: State, steps: seq<Step>, step: Step)
    requires History(s0, steps, Run(Next, s0, steps)) && OwnCurrent(Run(Next, s0, steps))
    ensures History(s0, steps + [step], Next(Run(Next, s0, steps), step))
  {
    var s := Run(Next, s0, steps);
    match step {
      case Create(_, _, _, _, _, _, _) => CreateExtends(s0, steps, step);
      case ReadFile(_, _) => ReadFileExtends(s0, steps, step);
      case ReadVersion(_, _, _, _, _) => ReadVersionExtends(s0, steps, step);
      case Write(c) => WriteExtends(s0, steps, c);
      case Rename(f, name) => RenameExtends(s0, steps, f, name);
      case _ => HistoryGrows(s0, steps, step, s, Next(s, step), 0, 0, 0);
    }
  }

  /** In every run from empty tables, within any bound or beyond it: each file row keeps creator, bound and time of its
      creation under a name given to it; each version row is the first one as created, or what one call wrote, with the
      name snapshot, path and time its caller supplied and the number after the one it read; and each call in flight
      carries what its own reads found and its caller supplied. */
  lemma {:induction false} RowsComeFromSteps(users: map<int, string>, groupIds: map<string, int>, steps: seq<Step>)
    ensures History(Init(users, groupIds), steps, Run(Next, Init(users, groupIds), steps))
    ensures OwnCurrent(Run(Next, Init(users, groupIds), steps))
    decreases |steps|
  {
    if steps != [] {
      var s0, n := Init(users, groupIds), |steps| - 1;
      RowsComeFromSteps(users, groupIds, steps[..n]);
      RunOneMore(Next, s0, steps[..n], steps[n]);
      assert steps == steps[..n] + [steps[n]];
      StepExtends(s0, steps[..n], steps[n]);
      StepKeepsOwn(Run(Next, s0, steps[..n]), steps[n]);
    }
  }

  /** A creation under free ids of a free name, by a user with a group, puts the file there with its one version. */
  lemma CreationTakesEffect(s: State, f: int, v: int, name: string, user: int, path: int, bound: UInt32, now: int)
    requires OwnCurrent(s) && f !in s.issued && v !in s.issued && f != v
    requires forall g | g in s.db.files :: s.db.files[g].name != name
    requires user in s.db.users && s.db.users[user] in s.db.groupIds
    ensures var s' := Next(s, Create(f, v, name, user, path, bound, now));
            && s'.db.files == s.db.files[f := File(name, v, bound, now, user)] && s'.issued == s.issued + {f, v}
            && s'.db.versions == s.db.versions[v := FileVersion(f, 1, name, path, now)] && s'.calls == s.calls
  {
    FileCreated(s.db, f, v, name, user, path, bound, now);
  }

  /** A rename to a free name changes the names of a file with a current version, and calls in flight do not notice. */
  lemma RenameTakesEffect(s: State, f: int, name: string)
    requires OwnCurrent(s) && HasCurrent(s.db, f) && forall g | g in s.db.files && g != f :: s.db.files[g].name != name
    ensures var s' := Next(s, Rename(f, name));
            && HasCurrent(s'.db, f) && s'.db.files[f] == s.db.files[f].(name := name)
            && s'.db.versions[s'.db.files[f].currentVersionId].nameSnapshot == name && s'.calls == s.calls
  {
    FileRenamed(s.db, f, name);
  }

  /** A removed file is gone with its versions; an abandoned call is forgotten; accounts change as long as no creator of a
      file goes. */
  lemma RemovalTakesEffect(s: State, f: int, c: int, users: map<int, string>, groups: map<string, int>)
    requires OwnCurrent(s)
    ensures f !in Next(s, Remove(f)).db.files && Numbers(Next(s, Remove(f)).db, f) == {} && Next(s, Remove(f)).calls == s.calls
    ensures c !in Next(s, Abandon(c)).calls && Next(s, Abandon(c)).db == s.db
    ensures (forall g | g in s.db.files :: s.db.files[g].createdBy in users) ==>
              Next(s, Accounts(users, groups)) == s.(db := s.db.(users := users, groupIds := groups))
  {
  }

  // ------------------------------------------------------------ one undisturbed call

  /** The state after both reads, nothing in between. */
  lemma UndisturbedReads(s: State, c: int, f: int, newId: int, snapshot: string, path: int, now: int)
    requires Invariant(s, f) && f in s.db.files && s.db.files[f].maxVersionCount != 0
    requires c !in s.calls && newId !in s.issued
    ensures HasCurrent(s.db, f)
    ensures var t := Ticket(f, s.db.files[f], newId, CurrentNumber(s.db, f) + 1, snapshot, path, now);
            Next(Next(s, ReadFile(c, f)), ReadVersion(c, newId, snapshot, path, now))
            == s.(calls := s.calls[c := Call(Ready(t), 0)], issued := s.issued + {newId})
  {
  }

  lemma OwnNameIsFree(db: Db, f: int)
    requires Schema(db) && f in db.files
    ensures !NameTaken(db, db.files[f].name, f)
  {
  }

  /** From any state reached with the file within its bound: a call that nothing comes between appends one version with the
      number after the current one, and the name snapshot, path and time supplied; makes it the current one; leaves the rest
      of the file row as it was; and of the other versions drops exactly those of the file outside the bound. */
  lemma UndisturbedCallAppends(s: State, c: int, f: int, newId: int, snapshot: string, path: int, now: int)
    requires Invariant(s, f) && f in s.db.files && s.db.files[f].maxVersionCount != 0
    requires c !in s.calls && newId !in s.issued
    ensures HasCurrent(s.db, f) && newId !in s.db.versions
    ensures var db' := Run(Next, s, [ReadFile(c, f), ReadVersion(c, newId, snapshot, path, now), Write(c)]).db;
            var n := CurrentNumber(s.db, f) + 1;
            && db' == s.db.(files := s.db.files[f := s.db.files[f].(currentVersionId := newId)], versions := db'.versions)
            && newId in db'.versions && db'.versions[newId] == FileVersion(f, n, snapshot, path, now)
            && (forall id | id != newId :: id in db'.versions <==>
                  id in s.db.versions &&
                  (s.db.versions[id].fileId == f ==> s.db.versions[id].number > n - Window(Limit(s.db.files[f]), n)))
            && (forall id | id in db'.versions && id != newId :: db'.versions[id] == s.db.versions[id])
  {
    UndisturbedReads(s, c, f, newId, snapshot, path, now);
    var s1 := Next(s, ReadFile(c, f));
    var s2 := Next(s1, ReadVersion(c, newId, snapshot, path, now));
    StepKeepsInvariant(s, ReadFile(c, f), f);
    StepKeepsInvariant(s1, ReadVersion(c, newId, snapshot, path, now), f);
    OwnNameIsFree(s.db, f);
    UndisturbedWrites(s2, c, f);
    RunOfThree(Next, s, ReadFile(c, f), ReadVersion(c, newId, snapshot, path, now), Write(c));
  }

  lemma UndisturbedWrites(s: State, c: int, f: int)
    requires Invariant(s, f) && f in s.db.files && s.db.files[f].maxVersionCount != 0
    requires c in s.calls && s.calls[c].FileId() == f && s.calls[c].phase.Ready? && s.calls[c].overtaken == 0
    requires s.calls[c].File() == s.db.files[f] && !NameTaken(s.db, s.db.files[f].name, f)
    ensures AppendedAndPruned(s.db, s.calls[c].phase.ticket, Next(s, Write(c)).db)
  {
    UnovertakenCallIsAtomic(s, c);
  }
}
