/** File contents on disk around the version tables. A request reserves a fresh path with O_EXCL, fills it, then
    commits a row that names it; when anything fails it unlinks its own path. Contents are strings whose
    characters stand for bytes. */
module ContentStore {
  import opened Outcomes
  import opened FileTables
  import opened Runs
  import FileVersionProtocol

  /** The progress of one upload (or of one file creation, whose content is empty). */
  datatype Job =
    | Filling(path: int, content: string, written: nat)
    | Filled(path: int, content: string)
    | InCall(path: int, content: string)
    | Failed(path: int)

  /** `committed` records, for every path a committed row ever named, the content supplied for it. */
  datatype State = State(core: FileVersionProtocol.State, disk: map<int, string>, jobs: map<int, Job>,
                         committed: map<int, string>)

  datatype Step =
    | Reserve(caller: int, path: int, content: string)
    | WriteSome(caller: int, count: nat)
    | WriteFails(caller: int)
    | FinishWriting(caller: int)
    | CreateFileRow(caller: int, fileId: int, versionId: int, name: string, user: int, bound: UInt32, now: int)
    | StartCall(caller: int, fileId: int)
    | ReadVersionRow(caller: int, newId: int, nameSnapshot: string, now: int)
    | CommitRow(caller: int)
    | CommitThrows(caller: int)
    | Cleanup(caller: int, unlinked: bool)
    | Tables(step: FileVersionProtocol.Step)

  function OpenDownload(disk: map<int, string>, path: int): Result<string> {
    if path in disk then Ok(disk[path]) else Err(NotFound)
  }

  function WithJob(s: State, c: int, job: Job): State {
    s.(jobs := s.jobs[c := job])
  }

  /** The caller's row went in (`committed` learns its content) or did not (its path is to be unlinked). */
  function Settle(s: State, c: int, core: FileVersionProtocol.State, ok: bool): State
    requires c in s.jobs && !s.jobs[c].Failed?
  {
    if ok then s.(core := core, jobs := s.jobs - {c}, committed := s.committed[s.jobs[c].path := s.jobs[c].content])
    else s.(core := core, jobs := s.jobs[c := Failed(s.jobs[c].path)])
  }

  function Next(s: State, step: Step): State {
    match step
    case Reserve(c, path, content) =>
      if c in s.jobs || path in s.disk then s
      else WithJob(s.(disk := s.disk[path := ""]), c, Filling(path, content, 0))
    case WriteSome(c, n) =>
      if c !in s.jobs || !s.jobs[c].Filling? || s.jobs[c].written + n > |s.jobs[c].content| then s
      else
        var Filling(path, content, written) := s.jobs[c];
        WithJob(s.(disk := s.disk[path := content[..written + n]]), c, Filling(path, content, written + n))
    case WriteFails(c) =>
      if c !in s.jobs || !s.jobs[c].Filling? then s else WithJob(s, c, Failed(s.jobs[c].path))
    case FinishWriting(c) =>
      if c !in s.jobs || !s.jobs[c].Filling? || s.jobs[c].written != |s.jobs[c].content| then s
      else WithJob(s, c, Filled(s.jobs[c].path, s.jobs[c].content))
    case CreateFileRow(c, f, v, name, user, bound, now) =>
      if c !in s.jobs || !s.jobs[c].Filled? || f in s.core.issued || v in s.core.issued || f == v then s
      else
        var path := s.jobs[c].path;
        Settle(s, c, FileVersionProtocol.Next(s.core, FileVersionProtocol.Create(f, v, name, user, path, bound, now)),
               CreateFile(s.core.db, f, v, name, user, path, bound, now).Ok?)
    case StartCall(c, f) =>
      if c !in s.jobs || !s.jobs[c].Filled? then s
      else if f !in s.core.db.files then WithJob(s, c, Failed(s.jobs[c].path))
      else WithJob(s.(core := FileVersionProtocol.Next(s.core, FileVersionProtocol.ReadFile(c, f))), c,
                   InCall(s.jobs[c].path, s.jobs[c].content))
    case ReadVersionRow(c, newId, snapshot, now) =>
      if c !in s.jobs || !s.jobs[c].InCall? then s
      else
        var core := FileVersionProtocol.Next(s.core, FileVersionProtocol.ReadVersion(c, newId, snapshot, s.jobs[c].path, now));
        if c in core.calls then s.(core := core) else Settle(s, c, core, false)
    case CommitRow(c) =>
      if c !in s.jobs || !s.jobs[c].InCall? || c !in s.core.calls || !s.core.calls[c].phase.Ready? then s
      else Settle(s, c, FileVersionProtocol.Next(s.core, FileVersionProtocol.Write(c)),
                  CommitVersion(s.core.db, s.core.calls[c].phase.ticket).Ok?)
    case CommitThrows(c) =>
      if c !in s.jobs || !s.jobs[c].InCall? then s
      else s.(core := FileVersionProtocol.Next(s.core, FileVersionProtocol.Abandon(c)), jobs := s.jobs - {c})
    case Cleanup(c, unlinked) =>
      if c !in s.jobs || !s.jobs[c].Failed? then s
      else s.(jobs := s.jobs - {c}, disk := if unlinked then s.disk - {s.jobs[c].path} else s.disk)
    case Tables(t) =>
      if t.Rename? || t.Remove? || t.Accounts? then s.(core := FileVersionProtocol.Next(s.core, t)) else s
  }

  function Init(users: map<int, string>, groupIds: map<string, int>, disk: map<int, string>): State {
    State(FileVersionProtocol.Init(users, groupIds), disk, map[], map[])
  }

  // ------------------------------------------------------------ invariant

  /** Every row's path is committed and no two rows share one; committed contents are on disk. */
  ghost predicate RowsHaveContent(s: State) {
    && (forall id | id in s.core.db.versions :: s.core.db.versions[id].path in s.committed)
    && (forall i, j | i in s.core.db.versions && j in s.core.db.versions
                      && s.core.db.versions[i].path == s.core.db.versions[j].path :: i == j)
    && (forall p | p in s.committed :: p in s.disk && s.disk[p] == s.committed[p])
  }

  /** A job owns its path: it exists, is not committed, and holds what has been written of the content. */
  ghost predicate JobOwnsPath(s: State, job: Job) {
    && job.path in s.disk && job.path !in s.committed
    && match job {
         case Filling(path, content, written) => written <= |content| && s.disk[path] == content[..written]
         case Failed(_) => true
         case _ => s.disk[job.path] == job.content
       }
  }

  ghost predicate JobsOwnPaths(s: State) {
    && (forall c | c in s.jobs :: JobOwnsPath(s, s.jobs[c]))
    && (forall c, d | c in s.jobs && d in s.jobs && s.jobs[c].path == s.jobs[d].path :: c == d)
  }

  ghost predicate CallsAreJobs(s: State) {
    forall c | c in s.core.calls ::
      && c in s.jobs && s.jobs[c].InCall?
      && (s.core.calls[c].phase.Ready? ==> s.core.calls[c].phase.ticket.path == s.jobs[c].path)
  }

  ghost predicate Invariant(s: State) {
    RowsHaveContent(s) && JobsOwnPaths(s) && CallsAreJobs(s)
  }

  // ------------------------------------------------------------ proofs

  /** Table steps other than an insertion leave every row's path alone. */
  ghost predicate PathsKept(db: Db, db': Db) {
    forall id | id in db'.versions :: id in db.versions && db'.versions[id].path == db.versions[id].path
  }

  /** At most one row is new, and it names `path`. */
  ghost predicate OneNewPath(db: Db, db': Db, newId: int, path: int) {
    forall id | id in db'.versions ::
      if id == newId then db'.versions[id].path == path
      else id in db.versions && db'.versions[id].path == db.versions[id].path
  }

  lemma TableStepPaths(s: FileVersionProtocol.State, t: FileVersionProtocol.Step)
    requires t.Rename? || t.Remove? || t.Accounts?
    ensures PathsKept(s.db, FileVersionProtocol.Next(s, t).db) && FileVersionProtocol.Next(s, t).calls == s.calls
  {
  }

  lemma DiskStepKeepsInvariant(s: State, step: Step)
    requires Invariant(s)
    requires step.Reserve? || step.WriteSome? || step.WriteFails? || step.FinishWriting? || step.Cleanup?
    ensures Invariant(Next(s, step))
  {
  }

  lemma StartCallKeepsInvariant(s: State, step: Step)
    requires Invariant(s) && (step.StartCall? || step.CommitThrows?)
    ensures Invariant(Next(s, step))
  {
  }

  lemma ReadVersionRowKeepsInvariant(s: State, step: Step)
    requires Invariant(s) && step.ReadVersionRow?
    ensures Invariant(Next(s, step))
  {
  }

  lemma CreateRowKeepsInvariant(s: State, step: Step)
    requires Invariant(s) && step.CreateFileRow?
    ensures Invariant(Next(s, step))
  {
  }

  lemma CommitRowKeepsInvariant(s: State, step: Step)
    requires Invariant(s) && step.CommitRow?
    ensures Invariant(Next(s, step))
  {
  }

  lemma StepKeepsInvariant(s: State, step: Step)
    requires Invariant(s)
    ensures Invariant(Next(s, step))
  {
    match step {
      case CreateFileRow(_, _, _, _, _, _, _) => CreateRowKeepsInvariant(s, step);
      case CommitRow(_) => CommitRowKeepsInvariant(s, step);
      case StartCall(_, _) => StartCallKeepsInvariant(s, step);
      case ReadVersionRow(_, _, _, _) => ReadVersionRowKeepsInvariant(s, step);
      case CommitThrows(_) => StartCallKeepsInvariant(s, step);
      case Tables(t) => if t.Rename? || t.Remove? || t.Accounts? { TableStepPaths(s.core, t); }
      case _ => DiskStepKeepsInvariant(s, step);
    }
  }

  /** No step takes a committed content back or changes it. */
  lemma StepKeepsCommitted(s: State, step: Step, p: int)
    requires Invariant(s) && p in s.committed
    ensures p in Next(s, step).committed && Next(s, step).committed[p] == s.committed[p]
  {
  }

  /** In every run what was committed stays committed, on disk and unchanged. */
  lemma RunsKeepCommitted(s: State, steps: seq<Step>)
    requires Invariant(s)
    ensures Invariant(Run(Next, s, steps))
    ensures forall p | p in s.committed ::
              p in Run(Next, s, steps).committed && Run(Next, s, steps).committed[p] == s.committed[p]
  {
    var good := (t: State) =>
        Invariant(t) && forall p | p in s.committed :: p in t.committed && t.committed[p] == s.committed[p];
    forall t, step | good(t) ensures good(Next(t, step)) {
      StepKeepsInvariant(t, step);
      forall p | p in s.committed ensures p in Next(t, step).committed && Next(t, step).committed[p] == s.committed[p] {
        StepKeepsCommitted(t, step, p);
      }
    }
    AllAllowed(Next, (t: State, step: Step) => true, s, steps);
    RunKeeps(Next, (t: State, step: Step) => true, good, s, steps);
  }

  lemma InitKeepsInvariant(users: map<int, string>, groupIds: map<string, int>, disk: map<int, string>)
    ensures Invariant(Init(users, groupIds, disk))
  {
  }

  // ------------------------------------------------------------ with the version protocol

  /** The protocol step a step makes, if any. */
  function CoreSteps(s: State, step: Step): seq<FileVersionProtocol.Step> {
    match step
    case CreateFileRow(c, f, v, name, user, bound, now) =>
      if c !in s.jobs || !s.jobs[c].Filled? then []
      else [FileVersionProtocol.Create(f, v, name, user, s.jobs[c].path, bound, now)]
    case StartCall(c, f) => if c !in s.jobs || !s.jobs[c].Filled? then [] else [FileVersionProtocol.ReadFile(c, f)]
    case ReadVersionRow(c, newId, snapshot, now) =>
      if c !in s.jobs || !s.jobs[c].InCall? then []
      else [FileVersionProtocol.ReadVersion(c, newId, snapshot, s.jobs[c].path, now)]
    case CommitRow(c) => if c !in s.jobs || !s.jobs[c].InCall? then [] else [FileVersionProtocol.Write(c)]
    case CommitThrows(c) => if c !in s.jobs || !s.jobs[c].InCall? then [] else [FileVersionProtocol.Abandon(c)]
    case Tables(t) => if t.Rename? || t.Remove? || t.Accounts? then [t] else []
    case _ => []
  }

  /** Under the contents, the tables and calls move as the version protocol says. */
  lemma CoreFollowsProtocol(s: State, step: Step)
    ensures Next(s, step).core == Run(FileVersionProtocol.Next, s.core, CoreSteps(s, step))
  {
  }

  /** No step writes file `f` overtaken by more commits than its bound. */
  predicate StepWithinBound(s: State, step: Step, f: int) {
    forall i | 0 <= i < |CoreSteps(s, step)| :: FileVersionProtocol.StepWithinBound(s.core, CoreSteps(s, step)[i], f)
  }

  function BoundOf(f: int): (State, Step) -> bool {
    (s: State, step: Step) => StepWithinBound(s, step, f)
  }

  ghost predicate Both(s: State, f: int) {
    Invariant(s) && FileVersionProtocol.Invariant(s.core, f)
  }

  lemma StepKeepsBoth(s: State, step: Step, f: int)
    requires Both(s, f) && StepWithinBound(s, step, f)
    ensures Both(Next(s, step), f)
  {
    StepKeepsInvariant(s, step);
    CoreFollowsProtocol(s, step);
    if CoreSteps(s, step) != [] {
      var t := CoreSteps(s, step)[0];
      assert CoreSteps(s, step) == [t];
      FileVersionProtocol.StepKeepsInvariant(s.core, t, f);
      assert Run(FileVersionProtocol.Next, s.core, [t]) == FileVersionProtocol.Next(s.core, t);
    }
  }

  lemma RunKeepsBoth(s: State, steps: seq<Step>, f: int)
    requires Both(s, f) && Allowed(Next, BoundOf(f), s, steps)
    ensures Both(Run(Next, s, steps), f)
  {
    forall s, step | Both(s, f) && BoundOf(f)(s, step) ensures Both(Next(s, step), f) {
      StepKeepsBoth(s, step, f);
    }
    RunKeeps(Next, BoundOf(f), s => Both(s, f), s, steps);
  }

  // ------------------------------------------------------------ the disk, in place

  /** What one `write` call does: some bytes, EINTR, or an error. */
  datatype WriteOutcome = Wrote(count: nat) | Interrupted | Failure

  /** `Waiting`: the outcomes observed so far do not decide the call. */
  datatype WriteResult = Done | Error(error: ServiceError) | Waiting

  /** `refused`: the operating system refuses the call for a reason other than the path being there or missing. */
  class Disk {
    var blobs: map<int, string>

    method CreateNew(path: int, refused: bool) returns (r: Result<()>)
      modifies this
      ensures r == if refused then Err(InternalError) else if path in old(blobs) then Err(Conflict) else Ok(())
      ensures blobs == if r.Ok? then old(blobs)[path := ""] else old(blobs)
    {
      if refused {
        return Err(InternalError);
      }
      if path in blobs {
        return Err(Conflict);
      }
      blobs := blobs[path := ""];
      return Ok(());
    }

    /** Truncates, then writes until all bytes are in, whatever the sizes of the single writes. On every other
        outcome the blob is as it was, if it could not be opened or truncated, or holds a proper prefix. */
    method WriteAll(path: int, content: string, refused: bool, truncated: bool, outcomes: seq<WriteOutcome>)
      returns (r: WriteResult)
      modifies this
      ensures refused ==> r == Error(InternalError) && blobs == old(blobs)
      ensures !refused && path !in old(blobs) ==> r == Error(NotFound) && blobs == old(blobs)
      ensures !refused && path in old(blobs) && !truncated ==> r == Error(InternalError) && blobs == old(blobs)
      ensures r == Done ==> blobs == old(blobs)[path := content]
      ensures !refused && path in old(blobs) && truncated && r != Done ==>
                exists n :: 0 <= n < |content| && blobs == old(blobs)[path := content[..n]]
      ensures r == Waiting ==> forall o | o in outcomes :: o != Failure && o != Wrote(0)
    {
      if refused {
        return Error(InternalError);
      }
      if path !in blobs {
        return Error(NotFound);
      }
      if !truncated {
        return Error(InternalError);
      }
      blobs := blobs[path := ""];
      var total, i := 0, 0;
      while total < |content|
        invariant 0 <= total <= |content| && 0 <= i <= |outcomes|
        invariant blobs == old(blobs)[path := content[..total]]
        invariant forall j | 0 <= j < i :: outcomes[j] != Failure && outcomes[j] != Wrote(0)
        decreases |outcomes| - i
      {
        if i == |outcomes| {
          return Waiting;
        }
        match outcomes[i] {
          case Interrupted =>
          case Failure => return Error(InternalError);
          case Wrote(n) =>
            var count := if n <= |content| - total then n else |content| - total;
            if count == 0 {
              return Error(InternalError);
            }
            total := total + count;
            blobs := blobs[path := content[..total]];
        }
        i := i + 1;
      }
      assert content[..total] == content;
      return Done;
    }

    method Remove(path: int, refused: bool) returns (r: Result<()>)
      modifies this
      ensures r == if path in old(blobs) && !refused then Ok(()) else Err(InternalError)
      ensures blobs == if r.Ok? then old(blobs) - {path} else old(blobs)
    {
      if refused || path !in blobs {
        return Err(InternalError);
      }
      blobs := blobs - {path};
      return Ok(());
    }

    /** Resolves the path to the bytes to send. */
    method Download(path: int, refused: bool) returns (r: Result<string>)
      ensures r == if refused then Err(InternalError) else OpenDownload(blobs, path)
    {
      if refused {
        return Err(InternalError);
      }
      if path !in blobs {
        return Err(NotFound);
      }
      return Ok(blobs[path]);
    }
  }
}
