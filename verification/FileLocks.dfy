/** Lease locks on files: at most one row per file, found by the token drawn when it was acquired. */
module FileLocks {
  import opened Outcomes
  import opened Runs

  datatype FileLock = FileLock(userId: int, leaseUntil: int, lockToken: int)

  /** The table `file_lock`, keyed by file, and the ids its foreign keys refer to. */
  datatype Db = Db(files: set<int>, users: set<int>, rows: map<int, FileLock>)

  // ------------------------------------------------------------ statements

  /** PRIMARY KEY(file_id) and the foreign keys; a lease that has run out is still a row. */
  function InsertLock(db: Db, fileId: int, row: FileLock): Result<Db> {
    if fileId in db.rows || fileId !in db.files || row.userId !in db.users then Err(Conflict)
    else Ok(db.(rows := db.rows[fileId := row]))
  }

  predicate Matches(db: Db, fileId: int, token: int) {
    fileId in db.rows && db.rows[fileId].lockToken == token
  }

  function DeleteLock(db: Db, fileId: int, token: int): Result<Db> {
    if Matches(db, fileId, token) then Ok(db.(rows := db.rows - {fileId})) else Err(NotFound)
  }

  function UpdateLease(db: Db, fileId: int, token: int, leaseUntil: int): Result<Db> {
    if Matches(db, fileId, token) then
      Ok(db.(rows := db.rows[fileId := db.rows[fileId].(leaseUntil := leaseUntil)]))
    else Err(NotFound)
  }

  function SelectLock(db: Db, fileId: int): Result<FileLock> {
    if fileId in db.rows then Ok(db.rows[fileId]) else Err(NotFound)
  }

  // ------------------------------------------------------------ service operations

  /** `now` is whatever the system clock says at the moment of the call. */
  function Acquire(db: Db, fileId: int, userId: int, now: int, duration: int, token: int): Result<Db> {
    InsertLock(db, fileId, FileLock(userId, now + duration, token))
  }

  /** The first half of a renewal, in a unit of work of its own. */
  function CheckRenewal(db: Db, fileId: int, token: int, now: int): Result<()> {
    var row :- SelectLock(db, fileId);
    if row.leaseUntil <= now then Err(NotFound)
    else if row.lockToken != token then Err(Forbidden)
    else Ok(())
  }

  function ActiveLock(db: Db, fileId: int, now: int): Result<FileLock> {
    var row :- SelectLock(db, fileId);
    if row.leaseUntil <= now then Err(NotFound) else Ok(row)
  }

  // ------------------------------------------------------------ runs

  /** What a caller, or the cascade, did to a file's lock. */
  datatype Event = Acquired(fileId: int, token: int) | Released(fileId: int, token: int) | FileDeleted(fileId: int)

  /** A renewal that has passed its check and not yet made its update. */
  datatype Renewal = Renewal(fileId: int, token: int)

  /** `lastToken`: the id generator's value; `log`: the successful operations so far. */
  datatype State = State(db: Db, renewals: map<nat, Renewal>, lastToken: int, log: seq<Event>)

  /** Atomic steps of any number of concurrent callers; every clock reading is arbitrary. */
  datatype Step =
    | AcquireLock(fileId: int, userId: int, now: int, duration: int, token: int)
    | BeginRenewal(call: nat, fileId: int, token: int, now: int)
    | FinishRenewal(call: nat, now: int, duration: int)
    | ReleaseLock(fileId: int, token: int)
    | CreateFile(fileId: int)
    | DeleteFile(fileId: int)
    | CreateUser(userId: int)
    | DeleteUser(userId: int)

  function OrElse(r: Result<Db>, db: Db): Db {
    if r.Ok? then r.value else db
  }

  function Next(s: State, step: Step): State {
    match step
    case AcquireLock(f, u, now, duration, token) =>
      var r := Acquire(s.db, f, u, now, duration, token);
      s.(db := OrElse(r, s.db), lastToken := token, log := s.log + if r.Ok? then [Acquired(f, token)] else [])
    case BeginRenewal(call, f, token, now) =>
      if CheckRenewal(s.db, f, token, now).Ok? then s.(renewals := s.renewals[call := Renewal(f, token)])
      else s.(renewals := s.renewals - {call})
    case FinishRenewal(call, now, duration) =>
      if call !in s.renewals then s
      else
        var x := s.renewals[call];
        s.(db := OrElse(UpdateLease(s.db, x.fileId, x.token, now + duration), s.db), renewals := s.renewals - {call})
    case ReleaseLock(f, token) =>
      var r := DeleteLock(s.db, f, token);
      s.(db := OrElse(r, s.db), log := s.log + if r.Ok? then [Released(f, token)] else [])
    case CreateFile(f) => s.(db := s.db.(files := s.db.files + {f}))
    case DeleteFile(f) =>
      s.(db := s.db.(files := s.db.files - {f}, rows := s.db.rows - {f}),
         log := s.log + if f in s.db.files then [FileDeleted(f)] else [])
    case CreateUser(u) => s.(db := s.db.(users := s.db.users + {u}))
    case DeleteUser(u) =>
      if exists f :: f in s.db.rows && s.db.rows[f].userId == u then s else s.(db := s.db.(users := s.db.users - {u}))
  }

  /** Tokens come from the id generator, so each is greater than all before it. */
  predicate FreshToken(s: State, step: Step) {
    step.AcquireLock? ==> step.token > s.lastToken
  }

  /** Who holds a file's lock, read off the log alone. */
  function Holder(log: seq<Event>, fileId: int): Option<int> {
    if log == [] then None
    else
      var e := log[|log| - 1];
      if e.fileId != fileId then Holder(log[..|log| - 1], fileId)
      else if e.Acquired? then Some(e.token)
      else None
  }

  /** A lock is acquired only when nobody holds it and released only by its holder. */
  predicate Fenced(log: seq<Event>) {
    log == [] ||
    (var before, e := log[..|log| - 1], log[|log| - 1];
     && Fenced(before)
     && (e.Acquired? ==> Holder(before, e.fileId) == None)
     && (e.Released? ==> Holder(before, e.fileId) == Some(e.token)))
  }

  /** The row of a file is its holder's; the foreign keys hold; no token is above the generator's value. */
  ghost predicate Invariant(s: State) {
    && Fenced(s.log)
    && (forall f :: Holder(s.log, f) == if f in s.db.rows then Some(s.db.rows[f].lockToken) else None)
    && (forall f | f in s.db.rows :: f in s.db.files && s.db.rows[f].userId in s.db.users)
    && (forall f | f in s.db.rows :: s.db.rows[f].lockToken <= s.lastToken)
    && (forall e | e in s.log && e.Acquired? :: e.token <= s.lastToken)
    && (forall c | c in s.renewals :: s.renewals[c].token <= s.lastToken)
  }

  predicate Starts(s: State) {
    s.db.rows == map[] && s.renewals == map[] && s.log == []
  }

  lemma Logged(log: seq<Event>, e: Event)
    ensures Holder(log + [e], e.fileId) == if e.Acquired? then Some(e.token) else None
    ensures forall f | f != e.fileId :: Holder(log + [e], f) == Holder(log, f)
    ensures Fenced(log + [e]) <==>
              && Fenced(log)
              && (e.Acquired? ==> Holder(log, e.fileId) == None)
              && (e.Released? ==> Holder(log, e.fileId) == Some(e.token))
  {
    assert (log + [e])[..|log|] == log;
  }

  lemma StepKeepsInvariant(s: State, step: Step)
    requires Invariant(s) && FreshToken(s, step)
    ensures Invariant(Next(s, step))
  {
    var s' := Next(s, step);
    if s'.log != s.log {
      var e := s'.log[|s.log|];
      assert s'.log == s.log + [e];
      Logged(s.log, e);
    }
  }

  lemma RunsKeepInvariant(s: State, steps: seq<Step>)
    requires Starts(s) && Allowed(Next, FreshToken, s, steps)
    ensures Invariant(Run(Next, s, steps))
  {
    forall s, step | Invariant(s) && FreshToken(s, step) ensures Invariant(Next(s, step)) {
      StepKeepsInvariant(s, step);
    }
    RunKeeps(Next, FreshToken, s => Invariant(s), s, steps);
  }

  // ------------------------------------------------------------ mutual exclusion

  predicate Ends(e: Event, fileId: int, token: int) {
    e == Released(fileId, token) || e == FileDeleted(fileId)
  }

  /** A holder stays one until its own release or the file's deletion. */
  lemma {:induction false} HeldUntilEnded(log: seq<Event>, i: nat, fileId: int, token: int)
    requires Fenced(log) && i < |log| && log[i] == Acquired(fileId, token)
    ensures Holder(log, fileId) == Some(token) || exists k :: i < k < |log| && Ends(log[k], fileId, token)
  {
    if i < |log| - 1 {
      var before := log[..|log| - 1];
      HeldUntilEnded(before, i, fileId, token);
      if Holder(before, fileId) != Some(token) {
        var k :| i < k < |before| && Ends(before[k], fileId, token);
        assert Ends(log[k], fileId, token);
      } else if Holder(log, fileId) != Some(token) {
        assert Ends(log[|log| - 1], fileId, token);
      }
    }
  }

  /** In every run, between two successful acquires of a file there is the release with the first one's token or the
      file's deletion. */
  lemma MutualExclusion(s: State, steps: seq<Step>, i: nat, j: nat)
    requires Starts(s) && Allowed(Next, FreshToken, s, steps)
    requires var log := Run(Next, s, steps).log;
             i < j < |log| && log[i].Acquired? && log[j].Acquired? && log[i].fileId == log[j].fileId
    ensures var log := Run(Next, s, steps).log; exists k :: i < k < j && Ends(log[k], log[i].fileId, log[i].token)
  {
    RunsKeepInvariant(s, steps);
    var log := Run(Next, s, steps).log;
    FencedPrefix(log, j + 1);
    var before := log[..j + 1][..j];
    assert before == log[..j];
    HeldUntilEnded(before, i, log[i].fileId, log[i].token);
    var k :| i < k < |before| && Ends(before[k], log[i].fileId, log[i].token);
    assert Ends(log[k], log[i].fileId, log[i].token);
  }

  lemma {:induction false} FencedPrefix(log: seq<Event>, n: nat)
    requires Fenced(log) && n <= |log|
    ensures Fenced(log[..n])
  {
    if n < |log| {
      assert log[..|log| - 1][..n] == log[..n];
      FencedPrefix(log[..|log| - 1], n);
    } else {
      assert log[..n] == log;
    }
  }

  // ------------------------------------------------------------ fencing by token

  predicate HeldBy(s: State, fileId: int, userId: int, token: int) {
    fileId in s.db.rows && s.db.rows[fileId].lockToken == token && s.db.rows[fileId].userId == userId
  }

  predicate LeavesAlone(fileId: int, token: int, step: Step) {
    step != ReleaseLock(fileId, token) && step != DeleteFile(fileId)
  }

  /** From a successful acquire until its own release or the file's deletion, whatever the clock says, the lock stays
      with its user and token; no other acquire on the file succeeds. */
  lemma {:induction false} HeldThroughout(s: State, steps: seq<Step>, fileId: int, userId: int, token: int)
    requires HeldBy(s, fileId, userId, token)
    requires forall i | 0 <= i < |steps| :: LeavesAlone(fileId, token, steps[i])
    ensures HeldBy(Run(Next, s, steps), fileId, userId, token)
    ensures forall i, k | 0 <= i < |steps| && steps[i].AcquireLock? && steps[i].fileId == fileId
                          && k == Run(Next, s, steps[..i]) ::
              Acquire(k.db, fileId, steps[i].userId, steps[i].now, steps[i].duration, steps[i].token) == Err(Conflict)
    decreases |steps|
  {
    if steps != [] {
      assert LeavesAlone(fileId, token, steps[0]);
      var rest := steps[1..];
      HeldThroughout(Next(s, steps[0]), rest, fileId, userId, token);
      forall i | 0 < i < |steps| ensures Run(Next, s, steps[..i]) == Run(Next, Next(s, steps[0]), rest[..i - 1]) {
        assert steps[..i][1..] == rest[..i - 1];
      }
    }
  }

  /** A token that was given out and is on no row any more. */
  ghost predicate Retired(s: State, token: int) {
    token <= s.lastToken && forall f | f in s.db.rows :: s.db.rows[f].lockToken != token
  }

  /** Uses `token` on any file: a release, or the update of a renewal that passed its check earlier. */
  predicate Uses(s: State, token: int, step: Step) {
    (step.ReleaseLock? && step.token == token) ||
    (step.FinishRenewal? && step.call in s.renewals && s.renewals[step.call].token == token)
  }

  /** A retired token stays retired through every run, and a release with it or the late update of a renewal that
      passed its check while the token was good changes no table. */
  lemma RetiredTokenIsPowerless(s: State, steps: seq<Step>, token: int, step: Step)
    requires Retired(s, token) && Allowed(Next, FreshToken, s, steps)
    ensures var e := Run(Next, s, steps); Retired(e, token) && (Uses(e, token, step) ==> Next(e, step).db == e.db)
  {
    RunKeeps(Next, FreshToken, s => Retired(s, token), s, steps);
  }

  /** No two rows ever share a token. */
  ghost predicate DistinctTokens(s: State) {
    && (forall f, g | f in s.db.rows && g in s.db.rows && s.db.rows[f].lockToken == s.db.rows[g].lockToken :: f == g)
    && (forall f | f in s.db.rows :: s.db.rows[f].lockToken <= s.lastToken)
  }

  lemma RunsKeepTokensDistinct(s: State, steps: seq<Step>)
    requires Starts(s) && Allowed(Next, FreshToken, s, steps)
    ensures DistinctTokens(Run(Next, s, steps))
  {
    RunKeeps(Next, FreshToken, s => DistinctTokens(s), s, steps);
  }

  /** The holder's release and the file's deletion retire the token. */
  lemma EndRetiresToken(s: State, step: Step, fileId: int, token: int)
    requires DistinctTokens(s) && Matches(s.db, fileId, token)
    requires step == ReleaseLock(fileId, token) || (step == DeleteFile(fileId) && fileId in s.db.files)
    ensures Retired(Next(s, step), token) && fileId !in Next(s, step).db.rows
  {
    forall f | f in s.db.rows && f != fileId ensures s.db.rows[f].lockToken != token {
    }
  }

  /** A step on a file's row that is not the holder's own leaves the row as it is: only an update with the holder's
      token moves the lease, only a release with it or the file's deletion removes the row. */
  lemma RowChangesOnlyByHolder(s: State, step: Step, fileId: int)
    requires fileId in s.db.rows
    requires fileId !in Next(s, step).db.rows || Next(s, step).db.rows[fileId] != s.db.rows[fileId]
    ensures step == DeleteFile(fileId) || Uses(s, s.db.rows[fileId].lockToken, step)
  {
  }

  // ------------------------------------------------------------ leases that have run out

  /** Whether an acquire succeeds does not depend on the clock: a lock whose lease has run out is reported as absent
      and still blocks every acquire, and its holder cannot renew it. */
  lemma ExpiredLockBlocks(db: Db, fileId: int, userId: int, now: int, duration: int, token: int, holder: int)
    ensures Acquire(db, fileId, userId, now, duration, token).Ok? <==>
              fileId in db.files && userId in db.users && fileId !in db.rows
    ensures ActiveLock(db, fileId, now).Ok? <==> fileId in db.rows && db.rows[fileId].leaseUntil > now
    ensures CheckRenewal(db, fileId, holder, now).Ok? <==>
              ActiveLock(db, fileId, now).Ok? && ActiveLock(db, fileId, now).value.lockToken == holder
    ensures CheckRenewal(db, fileId, holder, now) == Err(Forbidden) <==>
              ActiveLock(db, fileId, now).Ok? && ActiveLock(db, fileId, now).value.lockToken != holder
  {
  }

  /** An acquired lock is reported as active exactly until its lease ends; a renewal that goes through moves that end
      and nothing else. */
  lemma ActiveUntilLeaseEnds(db: Db, fileId: int, userId: int, now: int, duration: int, token: int, later: int, more: int,
                             t: int)
    requires Acquire(db, fileId, userId, now, duration, token).Ok?
    ensures var held := Acquire(db, fileId, userId, now, duration, token).value;
            var renewed := UpdateLease(held, fileId, token, later + more);
            && ActiveLock(held, fileId, t)
               == (if t < now + duration then Ok(FileLock(userId, now + duration, token)) else Err(NotFound))
            && renewed.Ok?
            && ActiveLock(renewed.value, fileId, t)
               == (if t < later + more then Ok(FileLock(userId, later + more, token)) else Err(NotFound))
            && forall f | f != fileId :: ActiveLock(renewed.value, f, t) == ActiveLock(db, f, t)
  {
  }

  /** The state after a renewal that nothing comes between. */
  function Renewed(s: State, call: nat, fileId: int, token: int, now: int, later: int, duration: int): State {
    Next(Next(s, BeginRenewal(call, fileId, token, now)), FinishRenewal(call, later, duration))
  }

  /** A renewal that nothing comes between, with the lock's token and before the lease ends by the first clock reading,
      moves the lease to its duration after the second one; any other renewal changes no table. */
  lemma RenewalMovesLease(s: State, call: nat, fileId: int, token: int, now: int, later: int, duration: int)
    requires call !in s.renewals
    ensures var good := fileId in s.db.rows && s.db.rows[fileId].lockToken == token && s.db.rows[fileId].leaseUntil > now;
            var s' := Renewed(s, call, fileId, token, now, later, duration);
            && (good ==> s'.db == s.db.(rows := s.db.rows[fileId := FileLock(s.db.rows[fileId].userId, later + duration, token)]))
            && (!good ==> s'.db == s.db) && s'.renewals == s.renewals && s'.log == s.log
  {
  }

  /** An acquire of a file without a row by a user gives it the lock, with the lease and token asked for, whoever had it
      before; the holder's release frees it for the next acquire, and a release with any other token does nothing. */
  lemma LockPassesOn(s: State, fileId: int, userId: int, now: int, duration: int, token: int, released: int)
    requires fileId in s.db.files && userId in s.db.users
    ensures var s1 := Next(s, ReleaseLock(fileId, released));
            var s2 := Next(s1, AcquireLock(fileId, userId, now, duration, token));
            var free := fileId !in s.db.rows || s.db.rows[fileId].lockToken == released;
            && (free ==> s2.db == s.db.(rows := s.db.rows[fileId := FileLock(userId, now + duration, token)])
                         && s2.log == s1.log + [Acquired(fileId, token)])
            && (!free ==> s2.db == s.db && s2.log == s.log)
            && (fileId in s.db.rows && free ==> s1.log == s.log + [Released(fileId, released)])
  {
    assert s.db.rows[fileId := FileLock(userId, now + duration, token)]
           == (s.db.rows - {fileId})[fileId := FileLock(userId, now + duration, token)];
  }

  /** Files and users come and go: a file takes its lock along; a user who holds a lock cannot be deleted. */
  lemma KeysComeAndGo(s: State, f: int, u: int)
    ensures Next(s, CreateFile(f)).db == s.db.(files := s.db.files + {f})
    ensures Next(s, CreateUser(u)).db == s.db.(users := s.db.users + {u})
    ensures f !in Next(s, DeleteFile(f)).db.files && f !in Next(s, DeleteFile(f)).db.rows
    ensures forall g | g != f && g in s.db.rows ::
              g in Next(s, DeleteFile(f)).db.rows && Next(s, DeleteFile(f)).db.rows[g] == s.db.rows[g]
    ensures u in Next(s, DeleteUser(u)).db.users <==>
              u in s.db.users && exists f :: f in s.db.rows && s.db.rows[f].userId == u
    ensures Next(s, DeleteUser(u)).db.rows == s.db.rows
  {
  }

  predicate ClockFrom(s: State, fileId: int, limit: int, step: Step) {
    && (step.BeginRenewal? ==> step.now >= limit)
    && !(step.ReleaseLock? && Matches(s.db, fileId, step.token))
    && step != DeleteFile(fileId)
  }

  /** Once a lease has run out with no renewal under way, and the clock does not go back, the file stays locked with
      that very row until the holder releases it or the file is deleted. */
  lemma ExpiredStaysLocked(s: State, steps: seq<Step>, fileId: int, now: int)
    requires fileId in s.db.rows && s.db.rows[fileId].leaseUntil <= now
    requires forall c | c in s.renewals :: s.renewals[c] != Renewal(fileId, s.db.rows[fileId].lockToken)
    requires Allowed(Next, (t: State, step: Step) => ClockFrom(t, fileId, now, step), s, steps)
    ensures var e := Run(Next, s, steps); fileId in e.db.rows && e.db.rows[fileId] == s.db.rows[fileId]
  {
    var row := s.db.rows[fileId];
    var inv := (t: State) => fileId in t.db.rows && t.db.rows[fileId] == row
                             && forall c | c in t.renewals :: t.renewals[c] != Renewal(fileId, row.lockToken);
    RunKeeps(Next, (t: State, step: Step) => ClockFrom(t, fileId, now, step), inv, s, steps);
  }

  // ------------------------------------------------------------ the objects

  /** The lock table of one connection, with the number of rows the last statement changed. */
  class LockTable {
    var files: set<int>
    var users: set<int>
    var rows: map<int, FileLock>
    var changes: nat

    function Value(): Db
      reads this
    {
      Db(files, users, rows)
    }

    constructor (files: set<int>, users: set<int>)
      ensures Value() == Db(files, users, map[])
    {
      this.files, this.users, rows, changes := files, users, map[], 0;
    }

    method Insert(fileId: int, row: FileLock) returns (violated: bool)
      modifies this`rows, this`changes
      ensures violated <==> InsertLock(old(Value()), fileId, row).Err?
      ensures Value() == OrElse(InsertLock(old(Value()), fileId, row), old(Value()))
    {
      violated := fileId in rows || fileId !in files || row.userId !in users;
      if !violated {
        rows, changes := rows[fileId := row], 1;
      }
    }

    method DeleteWhere(fileId: int, token: int)
      modifies this`rows, this`changes
      ensures changes == if Matches(old(Value()), fileId, token) then 1 else 0
      ensures Value() == OrElse(DeleteLock(old(Value()), fileId, token), old(Value()))
    {
      if fileId in rows && rows[fileId].lockToken == token {
        rows, changes := rows - {fileId}, 1;
      } else {
        changes := 0;
      }
    }

    method UpdateWhere(fileId: int, token: int, leaseUntil: int)
      modifies this`rows, this`changes
      ensures changes == if Matches(old(Value()), fileId, token) then 1 else 0
      ensures Value() == OrElse(UpdateLease(old(Value()), fileId, token, leaseUntil), old(Value()))
    {
      if fileId in rows && rows[fileId].lockToken == token {
        rows, changes := rows[fileId := rows[fileId].(leaseUntil := leaseUntil)], 1;
      } else {
        changes := 0;
      }
    }
  }

  class FileLockService {
    const table: LockTable

    constructor (table: LockTable)
      ensures this.table == table
    {
      this.table := table;
    }

    method AcquireLock(fileId: int, userId: int, now: int, duration: int, token: int) returns (r: Result<FileLock>)
      modifies table
      ensures var spec := Acquire(old(table.Value()), fileId, userId, now, duration, token);
              && table.Value() == OrElse(spec, old(table.Value()))
              && (spec.Ok? ==> r == Ok(table.rows[fileId]))
              && (spec.Err? ==> r == Err(spec.error))
    {
      var row := FileLock(userId, now + duration, token);
      var violated := table.Insert(fileId, row);
      if violated {
        return Err(Conflict);
      }
      return Ok(row);
    }

    /** The two units of work of a renewal; other callers run in between. */
    method BeginRenewLock(fileId: int, token: int, now: int) returns (r: Result<()>)
      ensures r == CheckRenewal(table.Value(), fileId, token, now)
    {
      if fileId !in table.rows {
        return Err(NotFound);
      }
      if table.rows[fileId].leaseUntil <= now {
        return Err(NotFound);
      }
      if table.rows[fileId].lockToken != token {
        return Err(Forbidden);
      }
      return Ok(());
    }

    method FinishRenewLock(fileId: int, token: int, now: int, duration: int) returns (r: Result<()>)
      modifies table
      ensures var spec := UpdateLease(old(table.Value()), fileId, token, now + duration);
              && table.Value() == OrElse(spec, old(table.Value()))
              && r == if spec.Ok? then Ok(()) else Err(spec.error)
    {
      table.UpdateWhere(fileId, token, now + duration);
      if table.changes == 0 {
        return Err(NotFound);
      }
      return Ok(());
    }

    method ReleaseLock(fileId: int, token: int) returns (r: Result<()>)
      modifies table
      ensures var spec := DeleteLock(old(table.Value()), fileId, token);
              && table.Value() == OrElse(spec, old(table.Value()))
              && r == if spec.Ok? then Ok(()) else Err(spec.error)
    {
      table.DeleteWhere(fileId, token);
      if table.changes == 0 {
        return Err(NotFound);
      }
      return Ok(());
    }

    method GetActiveLock(fileId: int, now: int) returns (r: Result<FileLock>)
      ensures r == ActiveLock(table.Value(), fileId, now)
    {
      if fileId !in table.rows || table.rows[fileId].leaseUntil <= now {
        return Err(NotFound);
      }
      return Ok(table.rows[fileId]);
    }
  }
}
