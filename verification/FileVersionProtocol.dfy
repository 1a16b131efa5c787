/** Concurrent `createNewVersion` calls. A call reads the file row, then its current version row, in a read
    unit of work that opens no transaction, and writes in a later transaction. In between, other calls may
    commit versions of the same file, rename it or remove it. UNIQUE(file_id, version) is the only guard. */
module FileVersionProtocol {
  import opened Outcomes
  import opened FileTables
  import opened Runs

  // ------------------------------------------------------------ consistency of one file

  ghost function Numbers(db: Db, f: int): set<int> {
    set id | id in db.versions && db.versions[id].fileId == f :: db.versions[id].number
  }

  /** The integers in (lo, hi]. */
  ghost function Span(lo: int, hi: int): (s: set<int>)
    ensures forall n :: n in s <==> lo < n <= hi
    ensures lo <= hi ==> |s| == hi - lo
    decreases hi - lo
  {
    if hi <= lo then {} else Span(lo, hi - 1) + {hi}
  }

  /** How many versions a file whose newest number is `c` keeps. */
  function Window(limit: int, c: int): int {
    if limit < 0 || c < limit then c else limit
  }

  ghost predicate HasCurrent(db: Db, f: int) {
    && f in db.files
    && db.files[f].currentVersionId in db.versions
    && db.versions[db.files[f].currentVersionId].fileId == f
  }

  ghost function CurrentNumber(db: Db, f: int): int
    requires HasCurrent(db, f)
  {
    db.versions[db.files[f].currentVersionId].number
  }

  function Limit(file: File): int {
    AsInt32(file.maxVersionCount)
  }

  /** The current version is stored, has the largest number c, and the stored numbers are exactly the last
      min(N, c) of 1..c. */
  ghost predicate Consistent(db: Db, f: int) {
    && HasCurrent(db, f)
    && var c := CurrentNumber(db, f);
    && 1 <= c
    && Numbers(db, f) == Span(c - Window(Limit(db.files[f]), c), c)
  }

  // ------------------------------------------------------------ interleaved calls

  datatype Phase = FileRead(fileId: int, file: File) | Ready(ticket: Ticket)

  /** `overtaken` counts the versions of the same file committed by others since the file row was read. */
  datatype Call = Call(phase: Phase, overtaken: nat) {
    function FileId(): int {
      if phase.FileRead? then phase.fileId else phase.ticket.fileId
    }

    function File(): File {
      if phase.FileRead? then phase.file else phase.ticket.file
    }
  }

  datatype State = State(db: Db, calls: map<int, Call>, issued: set<int>)

  datatype Step =
    | Create(fileId: int, versionId: int, name: string, user: int, path: int, maxVersionCount: UInt32, now: int)
    | ReadFile(caller: int, fileId: int)
    | ReadVersion(caller: int, newId: int, nameSnapshot: string, path: int, now: int)
    | Write(caller: int)
    | Abandon(caller: int)
    | Rename(fileId: int, name: string)
    | Remove(fileId: int)
    | Accounts(users: map<int, string>, groupIds: map<string, int>)

  function Overtake(calls: map<int, Call>, f: int): map<int, Call> {
    map c | c in calls :: if calls[c].FileId() == f then calls[c].(overtaken := calls[c].overtaken + 1) else calls[c]
  }

  /** The ticket of a call that has read version row `version`. */
  function MakeTicket(call: Call, version: FileVersion, newId: int, nameSnapshot: string, path: int, now: int): Ticket {
    Ticket(call.FileId(), call.File(), newId, version.number + 1, nameSnapshot, path, now)
  }

  /** One atomic step. A step that is not enabled (an id that was issued before, a caller in another phase,
      accounts that would leave a dangling `created_by`) changes nothing. */
  function Next(s: State, step: Step): State {
    match step
    case Create(f, v, name, user, path, n, now) =>
      if f in s.issued || v in s.issued || f == v then s
      else s.(db := After(s.db, CreateFile(s.db, f, v, name, user, path, n, now)), issued := s.issued + {f, v})
    case ReadFile(c, f) =>
      if c in s.calls || f !in s.db.files then s
      else s.(calls := s.calls[c := Call(FileRead(f, s.db.files[f]), 0)])
    case ReadVersion(c, newId, snapshot, path, now) =>
      if c !in s.calls || !s.calls[c].phase.FileRead? then s
      else if newId in s.issued then s
      else (
        match GetVersion(s.db, s.calls[c].File().currentVersionId)
        case Err(_) => s.(calls := s.calls - {c})
        case Ok(version) =>
          var ticket := MakeTicket(s.calls[c], version, newId, snapshot, path, now);
          s.(calls := s.calls[c := s.calls[c].(phase := Ready(ticket))], issued := s.issued + {newId})
      )
    case Write(c) =>
      if c !in s.calls || !s.calls[c].phase.Ready? then s
      else (
        match CommitVersion(s.db, s.calls[c].phase.ticket)
        case Err(_) => s.(calls := s.calls - {c})
        case Ok(db) => s.(db := db, calls := Overtake(s.calls - {c}, s.calls[c].FileId()))
      )
    case Abandon(c) => s.(calls := s.calls - {c})
    case Rename(f, name) => s.(db := After(s.db, RenameFile(s.db, f, name)))
    case Remove(f) => s.(db := After(s.db, DeleteFile(s.db, f)))
    case Accounts(users, groupIds) =>
      if forall f :: f in s.db.files ==> s.db.files[f].createdBy in users
      then s.(db := s.db.(users := users, groupIds := groupIds)) else s
  }

  function Init(users: map<int, string>, groupIds: map<string, int>): State {
    State(Db(users, groupIds, map[], map[], map[]), map[], {})
  }

  // ------------------------------------------------------------ the bound on overtaking

  predicate Tolerated(file: File, overtaken: nat) {
    Limit(file) < 0 || overtaken <= Limit(file)
  }

  /** The step is no write of file `f` that more than N commits have overtaken. Other files, and files with a bound of 0,
      are written without restriction. */
  predicate StepWithinBound(s: State, step: Step, f: int) {
    step.Write? && step.caller in s.calls && s.calls[step.caller].phase.Ready? && s.calls[step.caller].FileId() == f
    && s.calls[step.caller].File().maxVersionCount != 0
    ==> Tolerated(s.calls[step.caller].File(), s.calls[step.caller].overtaken)
  }

  function BoundOf(f: int): (State, Step) -> bool {
    (s: State, step: Step) => StepWithinBound(s, step, f)
  }

  ghost predicate WithinBound(s: State, steps: seq<Step>, f: int) {
    Allowed(Next, BoundOf(f), s, steps)
  }

  // ------------------------------------------------------------ invariant

  /** What a call in flight knows about a file that still exists. */
  ghost predicate Tracks(db: Db, call: Call) {
    var f := call.FileId();
    f in db.files ==>
      && call.File().maxVersionCount == db.files[f].maxVersionCount
      && call.File().createdBy == db.files[f].createdBy
      && (db.files[f].maxVersionCount != 0 && HasCurrent(db, f) ==> TracksNumber(db, call))
  }

  /** Row `id` is the version of file `f` with this number, or there is none. */
  ghost predicate OnlyVersion(db: Db, id: int, f: int, number: int) {
    && (id in db.versions ==> db.versions[id].fileId == f && db.versions[id].number == number)
    && (forall i | i in db.versions && db.versions[i].fileId == f && db.versions[i].number == number :: i == id)
  }

  ghost predicate TracksNumber(db: Db, call: Call)
    requires HasCurrent(db, call.FileId())
  {
    var c := CurrentNumber(db, call.FileId());
    && call.overtaken < c
    && match call.phase {
         case FileRead(f, file) => OnlyVersion(db, file.currentVersionId, f, c - call.overtaken)
         case Ready(t) => t.number == c - call.overtaken + 1
       }
  }

  ghost predicate IdsOk(s: State) {
    && s.db.files.Keys + s.db.versions.Keys <= s.issued
    && (forall c | c in s.calls :: s.calls[c].FileId() in s.issued && s.calls[c].File().currentVersionId in s.issued)
    && (forall c | c in s.calls && s.calls[c].phase.Ready? ::
          s.calls[c].phase.ticket.newId in s.issued && s.calls[c].phase.ticket.newId !in s.db.versions)
    && (forall c, d | c in s.calls && d in s.calls && d != c && s.calls[d].phase.Ready? ::
          && s.calls[c].File().currentVersionId != s.calls[d].phase.ticket.newId
          && (s.calls[c].phase.Ready? ==> s.calls[c].phase.ticket.newId != s.calls[d].phase.ticket.newId))
    && (forall f, c | f in s.db.files && c in s.calls && s.calls[c].phase.Ready? ::
          s.db.files[f].currentVersionId != s.calls[c].phase.ticket.newId)
    && (forall f | f in s.db.files :: s.db.files[f].currentVersionId in s.issued)
  }

  /** A file with a bound other than 0 that exists is consistent. */
  ghost predicate FileConsistent(db: Db, f: int) {
    f in db.files && db.files[f].maxVersionCount != 0 ==> Consistent(db, f)
  }

  /** The schema and the ids, and everything about file `f`; other files may be in any state. */
  ghost predicate Invariant(s: State, f: int) {
    && Schema(s.db)
    && FileConsistent(s.db, f)
    && IdsOk(s)
    && (forall c | c in s.calls && s.calls[c].FileId() == f :: Tracks(s.db, s.calls[c]))
  }

  // ------------------------------------------------------------ counting newer rows

  lemma {:induction false} InjectiveImageSize(ids: set<int>, number: map<int, int>, image: set<int>)
    requires ids <= number.Keys
    requires forall i, j | i in ids && j in ids && number[i] == number[j] :: i == j
    requires image == set i | i in ids :: number[i]
    ensures |image| == |ids|
  {
    if exists i :: i in ids {
      var i :| i in ids;
      var rest := set j | j in ids - {i} :: number[j];
      assert image == rest + {number[i]};
      InjectiveImageSize(ids - {i}, number, rest);
    } else {
      assert ids == {};
    }
  }

  /** A row has as many newer rows as its file has larger numbers. */
  lemma NewerCount(db: Db, id: int, larger: set<int>)
    requires UniqueNumbers(db) && id in db.versions
    requires forall n :: n in larger <==> n in Numbers(db, db.versions[id].fileId) && n > db.versions[id].number
    ensures |NewerIds(db, id)| == |larger|
  {
    var newer := NewerIds(db, id);
    var image := set i | i in newer :: db.versions[i].number;
    forall n ensures n in image <==> n in larger {
      if n in larger {
        assert exists i :: i in newer && db.versions[i].number == n;
      }
    }
    assert image == larger;
    InjectiveImageSize(newer, map i | i in newer :: db.versions[i].number, image);
  }

  // ------------------------------------------------------------ what one write transaction does

  /** The ticket was read when the current version of file `f` was `overtaken` versions older. */
  ghost predicate Behind(db: Db, t: Ticket, overtaken: nat) {
    && UniqueNumbers(db) && t.fileId in db.files && t.newId !in db.versions && t.file.createdBy in db.users
    && db.files[t.fileId].maxVersionCount == t.file.maxVersionCount != 0
    && Consistent(db, t.fileId)
    && t.number == CurrentNumber(db, t.fileId) - overtaken + 1
    && overtaken < CurrentNumber(db, t.fileId)
  }

  lemma NumberTakenMeans(db: Db, f: int, n: int)
    ensures NumberTaken(db, f, n) <==> n in Numbers(db, f)
  {
  }

  /** Overtaken by one to N commits: Conflict. */
  lemma OvertakenConflicts(db: Db, t: Ticket, overtaken: nat)
    requires Behind(db, t, overtaken) && overtaken > 0 && Tolerated(t.file, overtaken)
    ensures CommitVersion(db, t) == Err(Conflict)
  {
    NumberTakenMeans(db, t.fileId, t.number);
  }

  /** The tables after one atomic append-and-prune, said without SQL. */
  ghost predicate AppendedAndPruned(db: Db, t: Ticket, db': Db) {
    && t.fileId in db.files && HasCurrent(db, t.fileId)
    && var f, c := t.fileId, CurrentNumber(db, t.fileId) + 1;
    && db' == db.(files := db'.files, versions := db'.versions)
    && db'.files == db.files[f := t.file.(currentVersionId := t.newId)]
    && t.newId in db'.versions
    && db'.versions[t.newId] == FileVersion(f, c, t.nameSnapshot, t.path, t.createdAt)
    && (forall id | id != t.newId ::
          id in db'.versions <==>
          id in db.versions && (db.versions[id].fileId == f ==> db.versions[id].number > c - Window(Limit(t.file), c)))
    && (forall id | id in db'.versions && id != t.newId :: db'.versions[id] == db.versions[id])
  }

  /** The tables between the two updates and the pruning. */
  function Appended(db: Db, t: Ticket): Db {
    db.(versions := db.versions[t.newId := FileVersion(t.fileId, t.number, t.nameSnapshot, t.path, t.createdAt)],
        files := db.files[t.fileId := t.file.(currentVersionId := t.newId)])
  }

  lemma CommitIsAppendThenPrune(db: Db, t: Ticket)
    requires UniqueNumbers(db) && t.fileId in db.files && t.newId !in db.versions && t.number !in Numbers(db, t.fileId)
    requires t.file.createdBy in db.users
    ensures CommitVersion(db, t).Ok? <==> !NameTaken(db, t.file.name, t.fileId)
    ensures CommitVersion(db, t).Ok? ==>
              CommitVersion(db, t).value == PruneVersions(Appended(db, t), t.fileId, Limit(t.file))
    ensures UniqueNumbers(Appended(db, t))
    ensures Numbers(Appended(db, t), t.fileId) == Numbers(db, t.fileId) + {t.number}
  {
    NumberTakenMeans(db, t.fileId, t.number);
    var a := Appended(db, t);
    forall n ensures n in Numbers(a, t.fileId) <==> n in Numbers(db, t.fileId) + {t.number} {
      if n in Numbers(db, t.fileId) {
        var id :| id in db.versions && db.versions[id].fileId == t.fileId && db.versions[id].number == n;
        assert id in a.versions && a.versions[id].fileId == t.fileId;
      }
      assert t.newId in a.versions;
    }
  }

  /** Pruning after an append in turn keeps the numbers above the new window. */
  lemma UnovertakenRanks(db: Db, t: Ticket, id: int)
    requires Behind(db, t, 0)
    requires id in Appended(db, t).versions && Appended(db, t).versions[id].fileId == t.fileId
    ensures AmongNewest(Appended(db, t), id, Limit(t.file)) <==>
            Appended(db, t).versions[id].number > t.number - Window(Limit(t.file), t.number)
  {
    var a, v := Appended(db, t), Appended(db, t).versions[id].number;
    CommitIsAppendThenPrune(db, t);
    assert v in Numbers(a, t.fileId);
    NewerCount(a, id, Span(v, t.number));
  }

  /** Not overtaken: the append-and-prune happens, unless the name that was read has been taken since. */
  lemma UnovertakenAppends(db: Db, t: Ticket)
    requires Behind(db, t, 0)
    ensures CommitVersion(db, t).Ok? <==> !NameTaken(db, t.file.name, t.fileId)
    ensures CommitVersion(db, t).Ok? ==> AppendedAndPruned(db, t, CommitVersion(db, t).value)
  {
    CommitIsAppendThenPrune(db, t);
    forall id | id in Appended(db, t).versions && Appended(db, t).versions[id].fileId == t.fileId
      ensures AmongNewest(Appended(db, t), id, Limit(t.file)) <==>
              Appended(db, t).versions[id].number > t.number - Window(Limit(t.file), t.number)
    {
      UnovertakenRanks(db, t, id);
    }
  }

  /** A far overtaken append comes in below every stored number, so pruning drops it ... */
  lemma FarOvertakenDropped(db: Db, t: Ticket, overtaken: nat)
    requires Behind(db, t, overtaken) && !Tolerated(t.file, overtaken)
    ensures !AmongNewest(Appended(db, t), t.newId, Limit(t.file))
  {
    var c, n := CurrentNumber(db, t.fileId), Limit(t.file);
    CommitIsAppendThenPrune(db, t);
    assert Numbers(db, t.fileId) == Span(c - n, c);
    NewerCount(Appended(db, t), t.newId, Span(c - n, c));
  }

  /** ... and keeps the old rows. */
  lemma FarOvertakenKept(db: Db, t: Ticket, overtaken: nat, id: int)
    requires Behind(db, t, overtaken) && !Tolerated(t.file, overtaken)
    requires id in db.versions && db.versions[id].fileId == t.fileId
    ensures AmongNewest(Appended(db, t), id, Limit(t.file))
  {
    var a, v := Appended(db, t), db.versions[id].number;
    var c, n := CurrentNumber(db, t.fileId), Limit(t.file);
    CommitIsAppendThenPrune(db, t);
    assert v in Numbers(db, t.fileId);
    assert a.versions[id] == db.versions[id];
    NewerCount(a, id, Span(v, c));
  }

  lemma FarOvertakenPrunes(db: Db, t: Ticket, overtaken: nat)
    requires Behind(db, t, overtaken) && !Tolerated(t.file, overtaken)
    ensures PruneVersions(Appended(db, t), t.fileId, Limit(t.file)).versions == db.versions
  {
    FarOvertakenDropped(db, t, overtaken);
    forall id | id in db.versions && db.versions[id].fileId == t.fileId
      ensures AmongNewest(Appended(db, t), id, Limit(t.file))
    {
      FarOvertakenKept(db, t, overtaken, id);
    }
  }

  /** Overtaken by more than N commits: the transaction succeeds, and prunes the very row it appended. */
  lemma FarOvertakenDangles(db: Db, t: Ticket, overtaken: nat)
    requires Behind(db, t, overtaken) && !Tolerated(t.file, overtaken)
    ensures CommitVersion(db, t).Ok? <==> !NameTaken(db, t.file.name, t.fileId)
    ensures CommitVersion(db, t).Ok? ==>
              var db' := CommitVersion(db, t).value;
              && db' == db.(files := db.files[t.fileId := t.file.(currentVersionId := t.newId)])
              && !HasCurrent(db', t.fileId)
  {
    assert t.number !in Numbers(db, t.fileId);
    CommitIsAppendThenPrune(db, t);
    FarOvertakenPrunes(db, t, overtaken);
  }

  // ------------------------------------------------------------ every step keeps the invariant

  /** File `g` has the same bound, current version and version numbers in both. */
  ghost predicate SameFile(db: Db, db': Db, g: int) {
    && g in db.files && g in db'.files
    && db'.files[g].(name := db.files[g].name) == db.files[g]
    && (forall id :: id in db.versions && db.versions[id].fileId == g <==> id in db'.versions && db'.versions[id].fileId == g)
    && (forall id | id in db.versions && id in db'.versions && db.versions[id].fileId == g ::
          db'.versions[id].number == db.versions[id].number)
  }

  lemma SameFileStaysConsistent(db: Db, db': Db, g: int)
    requires SameFile(db, db', g)
    ensures Numbers(db', g) == Numbers(db, g)
    ensures HasCurrent(db, g) ==> HasCurrent(db', g) && CurrentNumber(db', g) == CurrentNumber(db, g)
    ensures Consistent(db, g) ==> Consistent(db', g)
  {
    forall n ensures n in Numbers(db, g) <==> n in Numbers(db', g) {
      if n in Numbers(db, g) {
        var id :| id in db.versions && db.versions[id].fileId == g && db.versions[id].number == n;
        assert id in db'.versions && db'.versions[id].fileId == g;
      }
      if n in Numbers(db', g) {
        var id :| id in db'.versions && db'.versions[id].fileId == g && db'.versions[id].number == n;
        assert id in db.versions && db.versions[id].fileId == g;
      }
    }
  }

  /** Only the appended file changes. */
  lemma CommitFrame(db: Db, t: Ticket, g: int)
    requires CommitVersion(db, t).Ok? && g in db.files && g != t.fileId
    ensures SameFile(db, CommitVersion(db, t).value, g)
  {
  }

  /** The numbers after an append in turn: `c` and the old ones above the new window. */
  lemma AppendedNumbers(db: Db, t: Ticket, db': Db, n: int)
    requires AppendedAndPruned(db, t, db') && t.newId !in db.versions
    ensures n in Numbers(db', t.fileId) <==>
            var c := CurrentNumber(db, t.fileId) + 1;
            n == c || (n in Numbers(db, t.fileId) && n > c - Window(Limit(t.file), c))
  {
    var f, c := t.fileId, CurrentNumber(db, t.fileId) + 1;
    assert t.newId in db'.versions;
    if n in Numbers(db', f) && n != c {
      var id :| id in db'.versions && db'.versions[id].fileId == f && db'.versions[id].number == n;
      assert id in db.versions;
    }
    if n in Numbers(db, f) && n > c - Window(Limit(t.file), c) {
      var id :| id in db.versions && db.versions[id].fileId == f && db.versions[id].number == n;
      assert id in db'.versions;
    }
  }

  lemma AppendStaysConsistent(db: Db, t: Ticket, db': Db)
    requires Behind(db, t, 0) && AppendedAndPruned(db, t, db')
    ensures Consistent(db', t.fileId) && CurrentNumber(db', t.fileId) == CurrentNumber(db, t.fileId) + 1
  {
    var c := CurrentNumber(db, t.fileId) + 1;
    forall n ensures n in Numbers(db', t.fileId) <==> n in Span(c - Window(Limit(t.file), c), c) {
      AppendedNumbers(db, t, db', n);
    }
  }

  /** A step that leaves the versions of file `f` alone, unless it creates the file, and starts no call. */
  ghost predicate Quiet(s: State, s': State, f: int) {
    && Schema(s'.db) && IdsOk(s')
    && (f in s'.db.files ==> if f in s.db.files then SameFile(s.db, s'.db, f) else f !in s.issued && FileConsistent(s'.db, f))
    && (forall id | id in s'.db.versions && id !in s.db.versions :: id !in s.issued)
    && (forall c | c in s'.calls :: c in s.calls && s'.calls[c] == s.calls[c])
  }

  lemma SameFileKeepsTracks(db: Db, db': Db, call: Call)
    requires Tracks(db, call) && call.FileId() in db'.files ==> SameFile(db, db', call.FileId())
    requires call.File().currentVersionId in db'.versions ==> call.File().currentVersionId in db.versions
    requires Tracks(db, call)
    ensures Tracks(db', call)
  {
    if call.FileId() in db'.files {
      SameFileStaysConsistent(db, db', call.FileId());
    }
  }

  lemma QuietKeepsInvariant(s: State, s': State, f: int)
    requires Invariant(s, f) && Quiet(s, s', f)
    ensures Invariant(s', f)
  {
    if f in s.db.files && f in s'.db.files {
      SameFileStaysConsistent(s.db, s'.db, f);
    }
    forall c | c in s'.calls && s'.calls[c].FileId() == f ensures Tracks(s'.db, s'.calls[c]) {
      SameFileKeepsTracks(s.db, s'.db, s.calls[c]);
    }
  }

  lemma FirstVersionConsistent(db: Db, f: int)
    requires HasCurrent(db, f) && CurrentNumber(db, f) == 1 && db.files[f].maxVersionCount != 0
    requires forall i | i in db.versions && db.versions[i].fileId == f :: i == db.files[f].currentVersionId
    ensures Consistent(db, f)
  {
    assert Numbers(db, f) == {1};
  }

  lemma CreatedTables(db: Db, f: int, v: int, name: string, user: int, path: int, bound: UInt32, now: int)
    requires Schema(db) && CreateFile(db, f, v, name, user, path, bound, now).Ok?
    ensures var db' := CreateFile(db, f, v, name, user, path, bound, now).value;
            && db' == db.(files := db.files[f := File(name, v, bound, now, user)],
                          versions := db.versions[v := FileVersion(f, 1, name, path, now)], acl := db'.acl)
            && f !in db.files && v !in db.versions && Schema(db')
  {
  }

  lemma RenamedTables(db: Db, f: int, name: string)
    requires Schema(db) && RenameFile(db, f, name).Ok?
    ensures HasRow(db, f) && Schema(RenameFile(db, f, name).value)
    ensures var v := db.files[f].currentVersionId;
            RenameFile(db, f, name).value ==
            db.(files := db.files[f := db.files[f].(name := name)],
                versions := db.versions[v := db.versions[v].(nameSnapshot := name)])
  {
  }

  predicate HasRow(db: Db, f: int) {
    f in db.files && db.files[f].currentVersionId in db.versions
  }

  lemma CreateKeepsIds(s: State, step: Step)
    requires Schema(s.db) && IdsOk(s) && step.Create?
    ensures IdsOk(Next(s, step))
  {
    if Next(s, step).db != s.db {
      CreatedTables(s.db, step.fileId, step.versionId, step.name, step.user, step.path, step.maxVersionCount, step.now);
    }
  }

  lemma CreateKeepsSchema(s: State, step: Step)
    requires Schema(s.db) && IdsOk(s) && step.Create?
    ensures Schema(Next(s, step).db)
  {
    if Next(s, step).db != s.db {
      CreatedTables(s.db, step.fileId, step.versionId, step.name, step.user, step.path, step.maxVersionCount, step.now);
    }
  }

  lemma CreateKeepsFile(s: State, step: Step, f: int)
    requires Schema(s.db) && IdsOk(s) && step.Create? && f in Next(s, step).db.files
    ensures if f in s.db.files then SameFile(s.db, Next(s, step).db, f)
            else f !in s.issued && FileConsistent(Next(s, step).db, f)
  {
    if Next(s, step).db != s.db {
      CreatedTables(s.db, step.fileId, step.versionId, step.name, step.user, step.path, step.maxVersionCount, step.now);
      if f == step.fileId && step.maxVersionCount != 0 {
        FirstVersionConsistent(Next(s, step).db, f);
      }
    }
  }

  lemma CreateIsQuiet(s: State, step: Step, f: int)
    requires Invariant(s, f) && step.Create?
    ensures Quiet(s, Next(s, step), f)
  {
    CreateKeepsIds(s, step);
    CreateKeepsSchema(s, step);
    if f in Next(s, step).db.files {
      CreateKeepsFile(s, step, f);
    }
  }

  lemma RenameIsQuiet(s: State, step: Step, f: int)
    requires Invariant(s, f) && step.Rename?
    ensures Quiet(s, Next(s, step), f)
  {
    if RenameFile(s.db, step.fileId, step.name).Ok? {
      RenamedTables(s.db, step.fileId, step.name);
      if f in s.db.files {
        RenameFrame(s.db, step.fileId, step.name, f);
      }
    }
  }

  lemma RenameFrame(db: Db, f: int, name: string, g: int)
    requires Schema(db) && RenameFile(db, f, name).Ok? && g in db.files
    ensures SameFile(db, RenameFile(db, f, name).value, g)
  {
    RenamedTables(db, f, name);
  }

  lemma RemoveIsQuiet(s: State, step: Step, f: int)
    requires Invariant(s, f) && step.Remove?
    ensures Quiet(s, Next(s, step), f)
  {
    var s' := Next(s, step);
    assert Schema(s'.db);
    assert f in s'.db.files ==> SameFile(s.db, s'.db, f);
  }

  lemma AccountsAreQuiet(s: State, step: Step, f: int)
    requires Invariant(s, f) && (step.Accounts? || step.Abandon?)
    ensures Quiet(s, Next(s, step), f)
  {
  }

  lemma ReadFileKeepsInvariant(s: State, step: Step, f: int)
    requires Invariant(s, f) && step.ReadFile?
    ensures Invariant(Next(s, step), f)
  {
  }

  lemma ReadVersionKeepsInvariant(s: State, step: Step, f: int)
    requires Invariant(s, f) && step.ReadVersion?
    ensures Invariant(Next(s, step), f)
  {
  }

  /** The call's next write starts from this knowledge. */
  lemma ReadyIsBehind(s: State, c: int)
    requires c in s.calls && Invariant(s, s.calls[c].FileId()) && s.calls[c].phase.Ready?
    requires s.calls[c].FileId() in s.db.files && s.calls[c].File().maxVersionCount != 0
    ensures Behind(s.db, s.calls[c].phase.ticket, s.calls[c].overtaken)
  {
    assert Tracks(s.db, s.calls[c]);
  }

  /** A successful write of a call within its bound is an append in turn. */
  lemma WrittenTables(s: State, c: int)
    requires c in s.calls && Invariant(s, s.calls[c].FileId()) && s.calls[c].phase.Ready?
    requires StepWithinBound(s, Write(c), s.calls[c].FileId()) && CommitVersion(s.db, s.calls[c].phase.ticket).Ok?
    ensures var t := s.calls[c].phase.ticket;
            && t.fileId in s.db.files
            && (t.file.maxVersionCount != 0 ==>
                  && s.calls[c].overtaken == 0 && Behind(s.db, t, 0)
                  && AppendedAndPruned(s.db, t, CommitVersion(s.db, t).value))
  {
    var t := s.calls[c].phase.ticket;
    if t.file.maxVersionCount != 0 {
      ReadyIsBehind(s, c);
      if s.calls[c].overtaken > 0 {
        OvertakenConflicts(s.db, t, s.calls[c].overtaken);
      }
      UnovertakenAppends(s.db, t);
    }
  }

  /** The writer's commit counts as one more overtaking of every other call on the file. */
  lemma AppendKeepsTracks(db: Db, t: Ticket, db': Db, call: Call)
    requires Behind(db, t, 0) && AppendedAndPruned(db, t, db')
    requires Tracks(db, call) && call.FileId() == t.fileId && call.File().currentVersionId != t.newId
    requires db.files[t.fileId].createdBy == t.file.createdBy
    ensures Tracks(db', call.(overtaken := call.overtaken + 1))
  {
    AppendStaysConsistent(db, t, db');
    if call.phase.FileRead? {
      var id, n := call.File().currentVersionId, CurrentNumber(db, t.fileId) - call.overtaken;
      assert OnlyVersion(db, id, t.fileId, n);
      assert OnlyVersion(db', id, t.fileId, n);
    }
  }

  /** Another call on the written file, counted as overtaken once more. */
  lemma WriteKeepsTracks(s: State, c: int, d: int)
    requires c in s.calls && Invariant(s, s.calls[c].FileId()) && s.calls[c].phase.Ready?
    requires StepWithinBound(s, Write(c), s.calls[c].FileId()) && CommitVersion(s.db, s.calls[c].phase.ticket).Ok?
    requires d in s.calls && d != c && s.calls[d].FileId() == s.calls[c].FileId()
    ensures Tracks(Next(s, Write(c)).db, Next(s, Write(c)).calls[d])
  {
    var t := s.calls[c].phase.ticket;
    WrittenTables(s, c);
    assert Tracks(s.db, s.calls[d]) && Tracks(s.db, s.calls[c]);
    if t.file.maxVersionCount != 0 {
      AppendKeepsTracks(s.db, t, CommitVersion(s.db, t).value, s.calls[d]);
    }
  }

  /** A call on a file that was not written. */
  lemma WriteLeavesTracks(s: State, c: int, d: int)
    requires c in s.calls && s.calls[c].phase.Ready? && CommitVersion(s.db, s.calls[c].phase.ticket).Ok? && IdsOk(s)
    requires d in s.calls && s.calls[d].FileId() != s.calls[c].FileId() && Tracks(s.db, s.calls[d])
    ensures Tracks(Next(s, Write(c)).db, Next(s, Write(c)).calls[d])
  {
    var t := s.calls[c].phase.ticket;
    var db' := CommitVersion(s.db, t).value;
    if s.calls[d].FileId() in db'.files {
      CommitFrame(s.db, t, s.calls[d].FileId());
    }
    SameFileKeepsTracks(s.db, db', s.calls[d]);
  }

  lemma WriteKeepsIds(s: State, c: int)
    requires IdsOk(s) && c in s.calls && s.calls[c].phase.Ready?
    ensures IdsOk(Next(s, Write(c)))
  {
  }

  lemma OwnWriteKeepsInvariant(s: State, c: int)
    requires c in s.calls && Invariant(s, s.calls[c].FileId()) && s.calls[c].phase.Ready?
    requires StepWithinBound(s, Write(c), s.calls[c].FileId()) && CommitVersion(s.db, s.calls[c].phase.ticket).Ok?
    ensures Invariant(Next(s, Write(c)), s.calls[c].FileId())
  {
    var t, s' := s.calls[c].phase.ticket, Next(s, Write(c));
    WriteKeepsIds(s, c);
    CommitKeepsSchema(s.db, t);
    WrittenTables(s, c);
    if t.file.maxVersionCount != 0 {
      AppendStaysConsistent(s.db, t, s'.db);
    }
    forall d | d in s'.calls && s'.calls[d].FileId() == t.fileId ensures Tracks(s'.db, s'.calls[d]) {
      WriteKeepsTracks(s, c, d);
    }
  }

  lemma OtherWriteKeepsInvariant(s: State, c: int, f: int)
    requires Invariant(s, f) && c in s.calls && s.calls[c].phase.Ready? && s.calls[c].FileId() != f
    requires CommitVersion(s.db, s.calls[c].phase.ticket).Ok?
    ensures Invariant(Next(s, Write(c)), f)
  {
    var t, s' := s.calls[c].phase.ticket, Next(s, Write(c));
    WriteKeepsIds(s, c);
    CommitKeepsSchema(s.db, t);
    if f in s.db.files {
      CommitFrame(s.db, t, f);
      SameFileStaysConsistent(s.db, s'.db, f);
    }
    forall d | d in s'.calls && s'.calls[d].FileId() == f ensures Tracks(s'.db, s'.calls[d]) {
      WriteLeavesTracks(s, c, d);
    }
  }

  lemma WriteKeepsInvariant(s: State, step: Step, f: int)
    requires Invariant(s, f) && step.Write? && StepWithinBound(s, step, f)
    ensures Invariant(Next(s, step), f)
  {
    var c := step.caller;
    if c in s.calls && s.calls[c].phase.Ready? {
      if CommitVersion(s.db, s.calls[c].phase.ticket).Err? {
        QuietKeepsInvariant(s, Next(s, step), f);
      } else if s.calls[c].FileId() == f {
        OwnWriteKeepsInvariant(s, c);
      } else {
        OtherWriteKeepsInvariant(s, c, f);
      }
    }
  }

  lemma CommitKeepsSchema(db: Db, t: Ticket)
    requires Schema(db) && CommitVersion(db, t).Ok?
    ensures Schema(CommitVersion(db, t).value)
  {
  }

  // ------------------------------------------------------------ whole runs

  lemma StepKeepsInvariant(s: State, step: Step, f: int)
    requires Invariant(s, f) && StepWithinBound(s, step, f)
    ensures Invariant(Next(s, step), f)
  {
    match step {
      case Create(_, _, _, _, _, _, _) => CreateIsQuiet(s, step, f); QuietKeepsInvariant(s, Next(s, step), f);
      case ReadFile(_, _) => ReadFileKeepsInvariant(s, step, f);
      case ReadVersion(_, _, _, _, _) => ReadVersionKeepsInvariant(s, step, f);
      case Write(_) => WriteKeepsInvariant(s, step, f);
      case Rename(_, _) => RenameIsQuiet(s, step, f); QuietKeepsInvariant(s, Next(s, step), f);
      case Remove(_) => RemoveIsQuiet(s, step, f); QuietKeepsInvariant(s, Next(s, step), f);
      case _ => AccountsAreQuiet(s, step, f); QuietKeepsInvariant(s, Next(s, step), f);
    }
  }

  lemma RunKeepsInvariant(s: State, steps: seq<Step>, f: int)
    requires Invariant(s, f) && WithinBound(s, steps, f)
    ensures Invariant(Run(Next, s, steps), f)
  {
    forall s, step | Invariant(s, f) && BoundOf(f)(s, step) ensures Invariant(Next(s, step), f) {
      StepKeepsInvariant(s, step, f);
    }
    RunKeeps(Next, BoundOf(f), s => Invariant(s, f), s, steps);
  }

  lemma InitKeepsInvariant(users: map<int, string>, groupIds: map<string, int>, f: int)
    ensures Invariant(Init(users, groupIds), f)
  {
  }

  /** For every file with a bound N other than 0 and every run from empty tables in which no write of that file is
      overtaken by more than N commits of it, whatever happens to other files: if the file is there, its current version
      is stored, has the largest number c, and the stored numbers are exactly the last min(N, c) of 1..c. */
  lemma RunsStayConsistent(users: map<int, string>, groupIds: map<string, int>, steps: seq<Step>, f: int)
    requires WithinBound(Init(users, groupIds), steps, f)
    ensures var s := Run(Next, Init(users, groupIds), steps);
            && Invariant(s, f)
            && (f in s.db.files && s.db.files[f].maxVersionCount != 0 ==> Consistent(s.db, f))
  {
    InitKeepsInvariant(users, groupIds, f);
    RunKeepsInvariant(Init(users, groupIds), steps, f);
  }

  // ------------------------------------------------------------ what a caller gets

  /** A call overtaken by 1..N version commits, or whose file is gone, gets Conflict and changes no table. */
  lemma OvertakenCallGetsConflict(s: State, c: int)
    requires c in s.calls && Invariant(s, s.calls[c].FileId()) && s.calls[c].phase.Ready?
    requires s.calls[c].FileId() in s.db.files ==>
               && s.calls[c].File().maxVersionCount != 0
               && s.calls[c].overtaken > 0 && Tolerated(s.calls[c].File(), s.calls[c].overtaken)
    ensures CommitVersion(s.db, s.calls[c].phase.ticket) == Err(Conflict)
    ensures Next(s, Write(c)) == s.(calls := s.calls - {c})
  {
    if s.calls[c].FileId() in s.db.files {
      ReadyIsBehind(s, c);
      OvertakenConflicts(s.db, s.calls[c].phase.ticket, s.calls[c].overtaken);
    }
  }

  /** A call overtaken by no version commit is one atomic append-and-prune. It can fail only if the file was
      renamed since it was read and the old name now belongs to another file; and since it writes the whole
      row back, a rename in between survives exactly if it changed nothing. */
  lemma UnovertakenCallIsAtomic(s: State, c: int)
    requires c in s.calls && Invariant(s, s.calls[c].FileId()) && s.calls[c].phase.Ready? && s.calls[c].overtaken == 0
    requires s.calls[c].FileId() in s.db.files && s.calls[c].File().maxVersionCount != 0
    ensures var t, r := s.calls[c].phase.ticket, CommitVersion(s.db, s.calls[c].phase.ticket);
            && (r.Ok? <==> !NameTaken(s.db, t.file.name, t.fileId))
            && (t.file.name == s.db.files[t.fileId].name ==> r.Ok?)
            && (r.Ok? ==> AppendedAndPruned(s.db, t, r.value) && Consistent(r.value, t.fileId))
            && (r.Ok? ==> (r.value.files[t.fileId].name == s.db.files[t.fileId].name
                           <==> t.file.name == s.db.files[t.fileId].name))
  {
    ReadyIsBehind(s, c);
    var t := s.calls[c].phase.ticket;
    UnovertakenAppends(s.db, t);
    if CommitVersion(s.db, t).Ok? {
      AppendStaysConsistent(s.db, t, CommitVersion(s.db, t).value);
    }
  }

  /** The two reads share no snapshot: the second one finds the row exactly if fewer than N versions were
      committed between them. */
  lemma SecondReadSucceedsIff(s: State, c: int)
    requires c in s.calls && Invariant(s, s.calls[c].FileId()) && s.calls[c].phase.FileRead?
    requires s.calls[c].FileId() in s.db.files && s.calls[c].File().maxVersionCount != 0
    ensures GetVersion(s.db, s.calls[c].File().currentVersionId).Ok?
            <==> Limit(s.calls[c].File()) < 0 || s.calls[c].overtaken < Limit(s.calls[c].File())
  {
    var f, id := s.calls[c].FileId(), s.calls[c].File().currentVersionId;
    assert Tracks(s.db, s.calls[c]);
    var n := CurrentNumber(s.db, f) - s.calls[c].overtaken;
    assert OnlyVersion(s.db, id, f, n);
    assert n in Numbers(s.db, f) <==> id in s.db.versions;
  }

  /** As long as the file is within its bound, `getCurrentVersion` with no commit between its two SELECTs gives the version
      of the file with the largest number, or NotFound exactly for a missing file. */
  lemma CurrentVersionIsNewest(s: State, f: int)
    requires Invariant(s, f) && (f in s.db.files ==> s.db.files[f].maxVersionCount != 0)
    ensures var r := GetCurrentVersion(s.db, f);
            && (r.Ok? <==> f in s.db.files) && (r.Err? ==> r.error == NotFound)
            && (r.Ok? ==> r.value.fileId == f && forall id | id in s.db.versions && s.db.versions[id].fileId == f ::
                            s.db.versions[id].number <= r.value.number)
  {
    if f in s.db.files {
      assert Consistent(s.db, f);
      forall id | id in s.db.versions && s.db.versions[id].fileId == f
        ensures s.db.versions[id].number <= CurrentNumber(s.db, f)
      {
        assert s.db.versions[id].number in Numbers(s.db, f);
      }
    }
  }

  /** The bound is exact: from any state reached with the file within its bound, whatever became of others, a write
      leaves its file consistent if and only if it is overtaken by at most N commits, or the name it read belongs to another
      file by now, so that it is refused. */
  lemma BoundIsExact(s: State, c: int)
    requires c in s.calls && Invariant(s, s.calls[c].FileId()) && s.calls[c].phase.Ready?
    requires s.calls[c].FileId() in s.db.files && s.calls[c].File().maxVersionCount != 0
    ensures Consistent(Next(s, Write(c)).db, s.calls[c].FileId())
            <==> Tolerated(s.calls[c].File(), s.calls[c].overtaken)
                 || NameTaken(s.db, s.calls[c].File().name, s.calls[c].FileId())
  {
    ReadyIsBehind(s, c);
    var t, k := s.calls[c].phase.ticket, s.calls[c].overtaken;
    if !Tolerated(t.file, k) {
      FarOvertakenDangles(s.db, t, k);
    } else {
      StepKeepsInvariant(s, Write(c), s.calls[c].FileId());
    }
  }

  /** With a bound of 0, which the service does not refuse, a successful write deletes every version. */
  lemma BoundZeroDeletesAll(db: Db, t: Ticket)
    requires t.file.maxVersionCount == 0 && CommitVersion(db, t).Ok?
    ensures Numbers(CommitVersion(db, t).value, t.fileId) == {}
    ensures !HasCurrent(CommitVersion(db, t).value, t.fileId)
  {
  }
}
