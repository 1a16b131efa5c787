/** Where contents come from and what stays on disk: in every run each committed content is the one a request supplied for
    the file and version it names, and each blob on disk has a reason to be there. */
module ContentHistory {
  import opened Outcomes
  import opened FileTables
  import opened Runs
  import FileVersionHistory
  import FileVersionProtocol
  import opened ContentStore

  ghost function Before(s0: State, steps: seq<Step>, i: nat): State
    requires i <= |steps|
  {
    StateAt(Next, s0, steps, i)
  }

  /** Request `c` reserved the fresh path at step `i`, and supplied the content. */
  ghost predicate SuppliedAt(s0: State, steps: seq<Step>, i: nat, c: int, path: int, content: string) {
    && i < |steps| && steps[i] == Reserve(c, path, content)
    && path !in Before(s0, steps, i).disk && c !in Before(s0, steps, i).jobs
  }

  /** Some request supplied this content for the path. */
  ghost predicate Supplied(s0: State, steps: seq<Step>, path: int, content: string) {
    exists i: nat, c :: SuppliedAt(s0, steps, i, c, path, content)
  }

  /** ... and then, at step `j`, read file `f`. */
  ghost predicate StartedAt(s0: State, steps: seq<Step>, i: nat, j: nat, c: int, path: int, content: string, f: int) {
    SuppliedAt(s0, steps, i, c, path, content) && i < j < |steps| && steps[j] == StartCall(c, f)
  }

  /** ... and then, at step `k`, read the current version and drew an id for the new one. */
  ghost predicate TicketAt(s0: State, steps: seq<Step>, k: nat, c: int, path: int, content: string, f: int, id: int,
                           now: int)
  {
    && k < |steps| && steps[k].ReadVersionRow? && steps[k].caller == c && steps[k].newId == id && steps[k].now == now
    && exists i: nat, j: nat :: j < k && StartedAt(s0, steps, i, j, c, path, content, f)
  }

  /** Step `m` of the request that supplied the content inserted version row `id` of file `f`. */
  ghost predicate InsertedAt(s0: State, steps: seq<Step>, m: nat, c: int, path: int, content: string, f: int, id: int,
                             now: int)
  {
    && m < |steps|
    && ((&& steps[m].CreateFileRow? && steps[m].caller == c && steps[m].fileId == f && steps[m].versionId == id
         && steps[m].now == now && exists i: nat :: i < m && SuppliedAt(s0, steps, i, c, path, content))
        || (steps[m] == CommitRow(c) && exists k: nat :: k < m && TicketAt(s0, steps, k, c, path, content, f, id, now)))
  }

  ghost predicate RowFrom(s0: State, steps: seq<Step>, id: int, row: FileVersion, content: string) {
    exists m: nat, c :: InsertedAt(s0, steps, m, c, row.path, content, row.fileId, id, row.createdAt)
  }

  /** The job's content is the one its request supplied, and its call is the one its request started. */
  ghost predicate JobFrom(s0: State, steps: seq<Step>, s: State, c: int)
    requires c in s.jobs
  {
    var job := s.jobs[c];
    && (!job.Failed? ==> exists i: nat :: SuppliedAt(s0, steps, i, c, job.path, job.content))
    && (job.InCall? && c in s.core.calls ==> CallFrom(s0, steps, c, job, s.core.calls[c].phase))
  }

  ghost predicate CallFrom(s0: State, steps: seq<Step>, c: int, job: Job, phase: FileVersionProtocol.Phase)
    requires job.InCall?
  {
    match phase
    case FileRead(f, _) => exists i: nat, j: nat :: StartedAt(s0, steps, i, j, c, job.path, job.content, f)
    case Ready(t) => exists k: nat :: TicketAt(s0, steps, k, c, job.path, job.content, t.fileId, t.newId, t.createdAt)
  }

  /** Every row's content is on record as the one supplied for that row. */
  ghost predicate ContentsSupplied(s0: State, steps: seq<Step>, s: State) {
    && (forall id | id in s.core.db.versions ::
          var row := s.core.db.versions[id];
          row.path in s.committed && RowFrom(s0, steps, id, row, s.committed[row.path]))
    && (forall p | p in s.committed :: Supplied(s0, steps, p, s.committed[p]))
    && (forall c | c in s.jobs :: JobFrom(s0, steps, s, c))
  }

  // ------------------------------------------------------------ one more step

  lemma SupplyStays(s0: State, steps: seq<Step>, step: Step, i: nat, c: int, path: int, content: string)
    requires SuppliedAt(s0, steps, i, c, path, content)
    ensures SuppliedAt(s0, steps + [step], i, c, path, content)
  {
    RunOneMore(Next, s0, steps, step);
  }

  lemma TicketStays(s0: State, steps: seq<Step>, step: Step, k: nat, c: int, path: int, content: string, f: int, id: int,
                    now: int)
    requires TicketAt(s0, steps, k, c, path, content, f, id, now)
    ensures TicketAt(s0, steps + [step], k, c, path, content, f, id, now)
  {
    var i: nat, j: nat :| j < k && StartedAt(s0, steps, i, j, c, path, content, f);
    SupplyStays(s0, steps, step, i, c, path, content);
    assert StartedAt(s0, steps + [step], i, j, c, path, content, f);
  }

  lemma RowStays(s0: State, steps: seq<Step>, step: Step, id: int, row: FileVersion, content: string)
    requires RowFrom(s0, steps, id, row, content)
    ensures RowFrom(s0, steps + [step], id, row, content)
  {
    var m: nat, c :| InsertedAt(s0, steps, m, c, row.path, content, row.fileId, id, row.createdAt);
    if steps[m].CreateFileRow? {
      var i: nat :| i < m && SuppliedAt(s0, steps, i, c, row.path, content);
      SupplyStays(s0, steps, step, i, c, row.path, content);
    } else {
      var k: nat :| k < m && TicketAt(s0, steps, k, c, row.path, content, row.fileId, id, row.createdAt);
      TicketStays(s0, steps, step, k, c, row.path, content, row.fileId, id, row.createdAt);
    }
    assert InsertedAt(s0, steps + [step], m, c, row.path, content, row.fileId, id, row.createdAt);
  }

  lemma CallStays(s0: State, steps: seq<Step>, step: Step, c: int, job: Job, phase: FileVersionProtocol.Phase)
    requires job.InCall? && CallFrom(s0, steps, c, job, phase)
    ensures CallFrom(s0, steps + [step], c, job, phase)
  {
    match phase {
      case FileRead(f, _) =>
        var i: nat, j: nat :| StartedAt(s0, steps, i, j, c, job.path, job.content, f);
        SupplyStays(s0, steps, step, i, c, job.path, job.content);
        assert StartedAt(s0, steps + [step], i, j, c, job.path, job.content, f);
      case Ready(t) =>
        var k: nat :| TicketAt(s0, steps, k, c, job.path, job.content, t.fileId, t.newId, t.createdAt);
        TicketStays(s0, steps, step, k, c, job.path, job.content, t.fileId, t.newId, t.createdAt);
    }
  }

  /** What was on record stays on record. */
  lemma RecordStays(s0: State, steps: seq<Step>, step: Step, s: State)
    requires ContentsSupplied(s0, steps, s)
    ensures ContentsSupplied(s0, steps + [step], s)
  {
    forall id | id in s.core.db.versions
      ensures RowFrom(s0, steps + [step], id, s.core.db.versions[id], s.committed[s.core.db.versions[id].path])
    {
      RowStays(s0, steps, step, id, s.core.db.versions[id], s.committed[s.core.db.versions[id].path]);
    }
    forall p | p in s.committed ensures Supplied(s0, steps + [step], p, s.committed[p]) {
      var i: nat, c :| SuppliedAt(s0, steps, i, c, p, s.committed[p]);
      SupplyStays(s0, steps, step, i, c, p, s.committed[p]);
    }
    forall c | c in s.jobs ensures JobFrom(s0, steps + [step], s, c) {
      JobStays(s0, steps, step, s, c);
    }
  }

  lemma JobStays(s0: State, steps: seq<Step>, step: Step, s: State, c: int)
    requires c in s.jobs && JobFrom(s0, steps, s, c)
    ensures JobFrom(s0, steps + [step], s, c)
  {
    var job := s.jobs[c];
    if !job.Failed? {
      var i: nat :| SuppliedAt(s0, steps, i, c, job.path, job.content);
      SupplyStays(s0, steps, step, i, c, job.path, job.content);
    }
    if job.InCall? && c in s.core.calls {
      CallStays(s0, steps, step, c, job, s.core.calls[c].phase);
    }
  }

  /** Only version row `id` is new; the others keep file, path and time. */
  ghost predicate RowsStay(db: Db, db': Db, id: int) {
    forall v | v in db'.versions ::
      if v in db.versions then
        && db'.versions[v].path == db.versions[v].path && db'.versions[v].fileId == db.versions[v].fileId
        && db'.versions[v].createdAt == db.versions[v].createdAt
      else v == id
  }

  lemma CommitRows(db: Db, t: Ticket)
    requires CommitVersion(db, t).Ok?
    ensures RowsStay(db, CommitVersion(db, t).value, t.newId)
    ensures t.newId in CommitVersion(db, t).value.versions ==>
              CommitVersion(db, t).value.versions[t.newId]
              == FileVersion(t.fileId, t.number, t.nameSnapshot, t.path, t.createdAt)
  {
  }

  lemma CreateRows(db: Db, f: int, v: int, name: string, user: int, path: int, bound: UInt32, now: int)
    requires CreateFile(db, f, v, name, user, path, bound, now).Ok?
    ensures var db' := CreateFile(db, f, v, name, user, path, bound, now).value;
            RowsStay(db, db', v) && v in db'.versions && db'.versions[v] == FileVersion(f, 1, name, path, now)
  {
  }

  lemma TableRows(s: FileVersionProtocol.State, t: FileVersionProtocol.Step)
    requires t.Rename? || t.Remove? || t.Accounts?
    ensures RowsStay(s.db, FileVersionProtocol.Next(s, t).db, 0) && FileVersionProtocol.Next(s, t).calls == s.calls
    ensures FileVersionProtocol.Next(s, t).db.versions.Keys <= s.db.versions.Keys
  {
  }

  /** The new state's rows, contents, jobs and calls are old ones, but for row `id` and job `c`; a job's progress does not
      matter. */
  ghost predicate OthersStay(s: State, s': State, id: int, c: int) {
    && RowsStay(s.core.db, s'.core.db, id)
    && (forall d | d in s'.jobs && d != c :: d in s.jobs && s'.jobs[d] == s.jobs[d])
    && (forall d | d in s'.core.calls && d != c :: d in s.core.calls && s'.core.calls[d].phase == s.core.calls[d].phase)
  }

  lemma RecordGrows(s0: State, steps: seq<Step>, s: State, s': State, id: int, c: int)
    requires Invariant(s) && ContentsSupplied(s0, steps, s) && OthersStay(s, s', id, c)
    requires forall p | p in s.committed :: p in s'.committed && s'.committed[p] == s.committed[p]
    requires forall p | p in s'.committed && p !in s.committed ::
               Supplied(s0, steps, p, s'.committed[p])
    requires id in s'.core.db.versions && id !in s.core.db.versions ==>
               var row := s'.core.db.versions[id];
               row.path in s'.committed && RowFrom(s0, steps, id, row, s'.committed[row.path])
    requires c in s'.jobs ==> JobFrom(s0, steps, s', c)
    ensures ContentsSupplied(s0, steps, s')
  {
    forall v | v in s'.core.db.versions
      ensures s'.core.db.versions[v].path in s'.committed
              && RowFrom(s0, steps, v, s'.core.db.versions[v], s'.committed[s'.core.db.versions[v].path])
    {
      if v in s.core.db.versions {
        assert RowFrom(s0, steps, v, s.core.db.versions[v], s.committed[s.core.db.versions[v].path]);
        SameRecord(s0, steps, v, s.core.db.versions[v], s'.core.db.versions[v], s.committed[s.core.db.versions[v].path]);
      }
    }
    forall d | d in s'.jobs ensures JobFrom(s0, steps, s', d) {
      if d != c {
        assert JobFrom(s0, steps, s, d);
      }
    }
  }

  lemma SameRecord(s0: State, steps: seq<Step>, id: int, row: FileVersion, row': FileVersion, content: string)
    requires RowFrom(s0, steps, id, row, content)
    requires row'.path == row.path && row'.fileId == row.fileId && row'.createdAt == row.createdAt
    ensures RowFrom(s0, steps, id, row', content)
  {
  }

  lemma LastStep(s0: State, steps: seq<Step>, step: Step)
    ensures (steps + [step])[|steps|] == step && Before(s0, steps + [step], |steps|) == Run(Next, s0, steps)
  {
    RunOneMore(Next, s0, steps, step);
    assert steps[..|steps|] == steps;
  }

  lemma DiskStepExtends(s0: State, steps: seq<Step>, step: Step)
    requires Invariant(Run(Next, s0, steps)) && ContentsSupplied(s0, steps, Run(Next, s0, steps))
    requires step.Reserve? || step.WriteSome? || step.WriteFails? || step.FinishWriting? || step.Cleanup?
    ensures ContentsSupplied(s0, steps + [step], Next(Run(Next, s0, steps), step))
  {
    var s := Run(Next, s0, steps);
    RecordStays(s0, steps, step, s);
    LastStep(s0, steps, step);
    var s' := Next(s, step);
    if step.Reserve? && s' != s {
      assert SuppliedAt(s0, steps + [step], |steps|, step.caller, step.path, step.content);
    }
    RecordGrows(s0, steps + [step], s, s', 0, step.caller);
  }

  lemma StartedNow(s0: State, steps: seq<Step>, c: int, f: int, job: Job)
    requires job.Filled? && exists i: nat :: SuppliedAt(s0, steps, i, c, job.path, job.content)
    ensures exists i: nat, j: nat :: StartedAt(s0, steps + [StartCall(c, f)], i, j, c, job.path, job.content, f)
  {
    var i: nat :| SuppliedAt(s0, steps, i, c, job.path, job.content);
    SupplyStays(s0, steps, StartCall(c, f), i, c, job.path, job.content);
    assert StartedAt(s0, steps + [StartCall(c, f)], i, |steps|, c, job.path, job.content, f);
  }

  lemma StartExtends(s0: State, steps: seq<Step>, c: int, f: int)
    requires Invariant(Run(Next, s0, steps)) && ContentsSupplied(s0, steps, Run(Next, s0, steps))
    ensures ContentsSupplied(s0, steps + [StartCall(c, f)], Next(Run(Next, s0, steps), StartCall(c, f)))
  {
    var s := Run(Next, s0, steps);
    RecordStays(s0, steps, StartCall(c, f), s);
    if c in s.jobs && s.jobs[c].Filled? {
      assert JobFrom(s0, steps, s, c) && JobFrom(s0, steps + [StartCall(c, f)], s, c);
      StartedNow(s0, steps, c, f, s.jobs[c]);
      RecordGrows(s0, steps + [StartCall(c, f)], s, Next(s, StartCall(c, f)), 0, c);
    }
  }

  lemma TicketExtends(s0: State, steps: seq<Step>, step: Step, c: int, job: Job, f: int, file: File)
    requires job.InCall? && CallFrom(s0, steps, c, job, FileVersionProtocol.FileRead(f, file))
    requires step.ReadVersionRow? && step.caller == c
    ensures TicketAt(s0, steps + [step], |steps|, c, job.path, job.content, f, step.newId, step.now)
  {
    var i: nat, j: nat :| StartedAt(s0, steps, i, j, c, job.path, job.content, f);
    SupplyStays(s0, steps, step, i, c, job.path, job.content);
    assert StartedAt(s0, steps + [step], i, j, c, job.path, job.content, f);
  }

  /** The second read finds the row and the call gets its ticket, or the call ends. */
  lemma SecondRead(s: State, step: Step)
    requires CallsAreJobs(s) && step.ReadVersionRow? && Next(s, step) != s
    ensures var s', c := Next(s, step), step.caller;
            && c in s.jobs && s.jobs[c].InCall? && c in s'.jobs && OthersStay(s, s', 0, c)
            && s'.core.db == s.core.db && s'.committed == s.committed
            && (s'.jobs[c].Failed? ||
                (&& s'.jobs[c] == s.jobs[c] && c in s.core.calls && s.core.calls[c].phase.FileRead?
                 && c in s'.core.calls && s'.core.calls[c].phase.Ready?
                 && var t := s'.core.calls[c].phase.ticket;
                    t.fileId == s.core.calls[c].FileId() && t.newId == step.newId && t.createdAt == step.now))
  {
  }

  lemma ReadVersionExtends(s0: State, steps: seq<Step>, step: Step)
    requires Invariant(Run(Next, s0, steps)) && ContentsSupplied(s0, steps, Run(Next, s0, steps))
    requires step.ReadVersionRow?
    ensures ContentsSupplied(s0, steps + [step], Next(Run(Next, s0, steps), step))
  {
    var s, c := Run(Next, s0, steps), step.caller;
    RecordStays(s0, steps, step, s);
    var s' := Next(s, step);
    if s' != s {
      SecondRead(s, step);
      if !s'.jobs[c].Failed? {
        TicketExtends(s0, steps, step, c, s.jobs[c], s.core.calls[c].FileId(), s.core.calls[c].File());
      }
      assert JobFrom(s0, steps + [step], s, c);
      RecordGrows(s0, steps + [step], s, s', 0, c);
    }
  }

  lemma CreatedNow(s0: State, steps: seq<Step>, step: Step, job: Job)
    requires step.CreateFileRow? && job.Filled?
    requires exists i: nat :: SuppliedAt(s0, steps, i, step.caller, job.path, job.content)
    ensures InsertedAt(s0, steps + [step], |steps|, step.caller, job.path, job.content, step.fileId, step.versionId, step.now)
  {
    var i: nat :| SuppliedAt(s0, steps, i, step.caller, job.path, job.content);
    SupplyStays(s0, steps, step, i, step.caller, job.path, job.content);
  }

  lemma CreateExtends(s0: State, steps: seq<Step>, step: Step)
    requires Invariant(Run(Next, s0, steps)) && ContentsSupplied(s0, steps, Run(Next, s0, steps))
    requires step.CreateFileRow?
    ensures ContentsSupplied(s0, steps + [step], Next(Run(Next, s0, steps), step))
  {
    var s, c := Run(Next, s0, steps), step.caller;
    RecordStays(s0, steps, step, s);
    var s' := Next(s, step);
    if s' != s {
      assert JobFrom(s0, steps, s, c);
      CreatedNow(s0, steps, step, s.jobs[c]);
      assert Supplied(s0, steps + [step], s.jobs[c].path, s.jobs[c].content) by {
        JobStays(s0, steps, step, s, c);
      }
      if s'.core.db != s.core.db {
        CreateRows(s.core.db, step.fileId, step.versionId, step.name, step.user, s.jobs[c].path, step.bound, step.now);
      }
      RecordGrows(s0, steps + [step], s, s', step.versionId, c);
    }
  }

  lemma CommittedNow(s0: State, steps: seq<Step>, c: int, job: Job, t: Ticket)
    requires job.InCall? && CallFrom(s0, steps, c, job, FileVersionProtocol.Ready(t))
    ensures InsertedAt(s0, steps + [CommitRow(c)], |steps|, c, job.path, job.content, t.fileId, t.newId, t.createdAt)
  {
    var k: nat :| TicketAt(s0, steps, k, c, job.path, job.content, t.fileId, t.newId, t.createdAt);
    TicketStays(s0, steps, CommitRow(c), k, c, job.path, job.content, t.fileId, t.newId, t.createdAt);
  }

  /** The write commits the job's content with its row, or the job fails and no row changes. */
  lemma CommitStep(s: State, c: int)
    requires Invariant(s) && c in s.jobs && s.jobs[c].InCall? && c in s.core.calls && s.core.calls[c].phase.Ready?
    ensures var s', job, t := Next(s, CommitRow(c)), s.jobs[c], s.core.calls[c].phase.ticket;
            && OthersStay(s, s', t.newId, c) && t.path == job.path
            && (c in s'.jobs ==> s'.jobs[c].Failed? && s'.core.db == s.core.db && s'.committed == s.committed)
            && (c !in s'.jobs ==>
                  && s'.committed == s.committed[job.path := job.content]
                  && (t.newId in s'.core.db.versions ==>
                        s'.core.db.versions[t.newId]
                        == FileVersion(t.fileId, t.number, t.nameSnapshot, t.path, t.createdAt)))
  {
    if CommitVersion(s.core.db, s.core.calls[c].phase.ticket).Ok? {
      CommitRows(s.core.db, s.core.calls[c].phase.ticket);
    }
  }

  lemma CommitExtends(s0: State, steps: seq<Step>, c: int)
    requires Invariant(Run(Next, s0, steps)) && ContentsSupplied(s0, steps, Run(Next, s0, steps))
    ensures ContentsSupplied(s0, steps + [CommitRow(c)], Next(Run(Next, s0, steps), CommitRow(c)))
  {
    var s := Run(Next, s0, steps);
    RecordStays(s0, steps, CommitRow(c), s);
    if c in s.jobs && s.jobs[c].InCall? && c in s.core.calls && s.core.calls[c].phase.Ready? {
      var job, t := s.jobs[c], s.core.calls[c].phase.ticket;
      assert JobFrom(s0, steps, s, c);
      CommittedNow(s0, steps, c, job, t);
      assert Supplied(s0, steps + [CommitRow(c)], job.path, job.content) by {
        JobStays(s0, steps, CommitRow(c), s, c);
      }
      CommitStep(s, c);
      RecordGrows(s0, steps + [CommitRow(c)], s, Next(s, CommitRow(c)), t.newId, c);
    }
  }

  lemma ThrowExtends(s0: State, steps: seq<Step>, c: int)
    requires Invariant(Run(Next, s0, steps)) && ContentsSupplied(s0, steps, Run(Next, s0, steps))
    ensures ContentsSupplied(s0, steps + [CommitThrows(c)], Next(Run(Next, s0, steps), CommitThrows(c)))
  {
    var s := Run(Next, s0, steps);
    RecordStays(s0, steps, CommitThrows(c), s);
    RecordGrows(s0, steps + [CommitThrows(c)], s, Next(s, CommitThrows(c)), 0, c);
  }

  lemma TablesExtend(s0: State, steps: seq<Step>, t: FileVersionProtocol.Step)
    requires Invariant(Run(Next, s0, steps)) && ContentsSupplied(s0, steps, Run(Next, s0, steps))
    ensures ContentsSupplied(s0, steps + [Tables(t)], Next(Run(Next, s0, steps), Tables(t)))
  {
    var s := Run(Next, s0, steps);
    RecordStays(s0, steps, Tables(t), s);
    if t.Rename? || t.Remove? || t.Accounts? {
      TableRows(s.core, t);
      forall c | c in s.jobs ensures JobFrom(s0, steps + [Tables(t)], Next(s, Tables(t)), c) {
        assert JobFrom(s0, steps + [Tables(t)], s, c);
      }
      RecordGrows(s0, steps + [Tables(t)], s, Next(s, Tables(t)), 0, 0);
    }
  }

  lemma StepExtends(s0: State, steps: seq<Step>, step: Step)
    requires Invariant(Run(Next, s0, steps)) && ContentsSupplied(s0, steps, Run(Next, s0, steps))
    ensures ContentsSupplied(s0, steps + [step], Next(Run(Next, s0, steps), step))
  {
    match step {
      case CreateFileRow(_, _, _, _, _, _, _) => CreateExtends(s0, steps, step);
      case StartCall(c, f) => StartExtends(s0, steps, c, f);
      case ReadVersionRow(_, _, _, _) => ReadVersionExtends(s0, steps, step);
      case CommitRow(c) => CommitExtends(s0, steps, c);
      case CommitThrows(c) => ThrowExtends(s0, steps, c);
      case Tables(t) => TablesExtend(s0, steps, t);
      case _ => DiskStepExtends(s0, steps, step);
    }
  }

  // ------------------------------------------------------------ whole runs

  /** In every run, whatever is created, uploaded, pruned, deleted or fails: each version row's path is shared with no
      other row, and a download of it gives exactly the content that the request which created or uploaded this very
      version of this file supplied. */
  lemma {:induction false} RunsKeepContent(users: map<int, string>, groupIds: map<string, int>, disk: map<int, string>,
                                           steps: seq<Step>)
    ensures var s0 := Init(users, groupIds, disk);
            var s := Run(Next, s0, steps);
            && Invariant(s) && ContentsSupplied(s0, steps, s)
            && forall id | id in s.core.db.versions :: DownloadsSupplied(s0, steps, s.disk, id, s.core.db.versions[id])
    decreases |steps|
  {
    var s0 := Init(users, groupIds, disk);
    if steps == [] {
      InitKeepsInvariant(users, groupIds, disk);
    } else {
      var n := |steps| - 1;
      RunsKeepContent(users, groupIds, disk, steps[..n]);
      RunOneMore(Next, s0, steps[..n], steps[n]);
      assert steps == steps[..n] + [steps[n]];
      StepKeepsInvariant(Run(Next, s0, steps[..n]), steps[n]);
      StepExtends(s0, steps[..n], steps[n]);
    }
    var s := Run(Next, s0, steps);
    forall id | id in s.core.db.versions ensures DownloadsSupplied(s0, steps, s.disk, id, s.core.db.versions[id]) {
      assert RowFrom(s0, steps, id, s.core.db.versions[id], s.committed[s.core.db.versions[id].path]);
    }
  }

  /** A download of the row gives the content that was supplied for it. */
  ghost predicate DownloadsSupplied(s0: State, steps: seq<Step>, disk: map<int, string>, id: int, row: FileVersion) {
    OpenDownload(disk, row.path).Ok? && RowFrom(s0, steps, id, row, OpenDownload(disk, row.path).value)
  }

  /** A download that has read a row finds the content supplied for it at any later time, even if the row has been pruned
      or its file removed by then. */
  lemma DownloadFindsBytes(users: map<int, string>, groupIds: map<string, int>, disk: map<int, string>, steps: seq<Step>,
                           id: int, more: seq<Step>)
    requires id in Run(Next, Init(users, groupIds, disk), steps).core.db.versions
    ensures var s0 := Init(users, groupIds, disk);
            DownloadsSupplied(s0, steps, Run(Next, s0, steps + more).disk, id, Run(Next, s0, steps).core.db.versions[id])
  {
    var s0 := Init(users, groupIds, disk);
    RunsKeepContent(users, groupIds, disk, steps);
    RunConcat(Next, s0, steps, more);
    RunsKeepCommitted(Run(Next, s0, steps), more);
  }

  /** The file's current version is stored, is its newest one, and downloading it gives the content supplied for it. */
  ghost predicate ServesNewest(s0: State, steps: seq<Step>, s: State, f: int) {
    && f in s.core.db.files && s.core.db.files[f].currentVersionId in s.core.db.versions
    && var id := s.core.db.files[f].currentVersionId;
    && var row := s.core.db.versions[id];
    && GetCurrentVersion(s.core.db, f) == Ok(row) && row.fileId == f
    && DownloadsSupplied(s0, steps, s.disk, id, row)
    && forall v | v in s.core.db.versions && s.core.db.versions[v].fileId == f :: s.core.db.versions[v].number <= row.number
  }

  /** In every run, whatever the disk held before, in which no write of file `f` is overtaken by more commits than its
      bound: if the file is there, a download of its current version gives exactly the content that was supplied for that
      version of that file, and no stored version of the file is newer. */
  lemma CurrentDownloadIsNewest(users: map<int, string>, groupIds: map<string, int>, disk: map<int, string>,
                                steps: seq<Step>, f: int)
    requires Allowed(Next, BoundOf(f), Init(users, groupIds, disk), steps)
    ensures var s0 := Init(users, groupIds, disk);
            var s := Run(Next, s0, steps);
            f in s.core.db.files && s.core.db.files[f].maxVersionCount != 0 ==> ServesNewest(s0, steps, s, f)
  {
    var s0 := Init(users, groupIds, disk);
    var s := Run(Next, s0, steps);
    InitKeepsInvariant(users, groupIds, disk);
    FileVersionProtocol.InitKeepsInvariant(users, groupIds, f);
    RunKeepsBoth(s0, steps, f);
    RunsKeepContent(users, groupIds, disk, steps);
    if f in s.core.db.files && s.core.db.files[f].maxVersionCount != 0 {
      BothServesNewest(s0, steps, s, f);
    }
  }

  lemma BothServesNewest(s0: State, steps: seq<Step>, s: State, f: int)
    requires Both(s, f) && f in s.core.db.files && s.core.db.files[f].maxVersionCount != 0
    requires forall id | id in s.core.db.versions :: DownloadsSupplied(s0, steps, s.disk, id, s.core.db.versions[id])
    ensures ServesNewest(s0, steps, s, f)
  {
    FileVersionProtocol.CurrentVersionIsNewest(s.core, f);
    assert s.core.db.files[f].currentVersionId in s.core.db.versions;
  }

  // ------------------------------------------------------------ what is on the disk

  ghost predicate Held(s: State, p: int) {
    exists c | c in s.jobs :: s.jobs[c].path == p
  }

  /** The step ends a request without unlinking its path: the unlink is refused, or the commit throws. */
  ghost predicate Leaves(s: State, step: Step, p: int) {
    && (step.Cleanup? || step.CommitThrows?) && step.caller in s.jobs && s.jobs[step.caller].path == p
    && (if step.Cleanup? then !step.unlinked && s.jobs[step.caller].Failed? else s.jobs[step.caller].InCall?)
  }

  ghost predicate LeftAt(s0: State, steps: seq<Step>, i: nat, p: int) {
    i < |steps| && Leaves(Before(s0, steps, i), steps[i], p)
  }

  ghost predicate Left(s0: State, steps: seq<Step>, p: int) {
    exists i: nat :: LeftAt(s0, steps, i, p)
  }

  /** What was there before is untouched; every other blob is committed, in the hands of one request, or left behind. */
  ghost predicate Accounted(s0: State, steps: seq<Step>, s: State) {
    && (forall p | p in s0.disk :: p in s.disk && s.disk[p] == s0.disk[p])
    && (forall p :: p in s.disk <==> p in s0.disk || p in s.committed || Held(s, p) || Left(s0, steps, p))
    && (forall p | p in s0.disk || Left(s0, steps, p) :: p !in s.committed && !Held(s, p))
  }

  lemma LeftBefore(s0: State, steps: seq<Step>, step: Step, p: int)
    ensures Left(s0, steps + [step], p) <==> Left(s0, steps, p) || LeftAt(s0, steps + [step], |steps|, p)
  {
    RunOneMore(Next, s0, steps, step);
    if Left(s0, steps, p) {
      var i: nat :| LeftAt(s0, steps, i, p);
      assert LeftAt(s0, steps + [step], i, p);
    }
    if Left(s0, steps + [step], p) {
      var i: nat :| LeftAt(s0, steps + [step], i, p);
      assert i < |steps| ==> LeftAt(s0, steps, i, p);
    }
  }

  /** How one step changes the jobs, the disk and the committed contents: only those of its caller. */
  lemma StepMovesPath(s: State, step: Step)
    requires Invariant(s)
    ensures var s' := Next(s, step);
            || (s'.disk.Keys == s.disk.Keys && s'.committed.Keys == s.committed.Keys && SamePaths(s, s'))
            || (!step.Tables? && TakesOrGives(s, s', step, step.caller))
  {
  }

  lemma StepLeavesOthers(s: State, step: Step)
    ensures forall p | p in s.disk && !Held(s, p) :: p in Next(s, step).disk && Next(s, step).disk[p] == s.disk[p]
  {
  }

  ghost predicate SamePaths(s: State, s': State) {
    s'.jobs.Keys == s.jobs.Keys && forall c | c in s.jobs :: s'.jobs[c].path == s.jobs[c].path
  }

  /** The caller begins with a fresh path, or ends, with its path committed, unlinked or left. */
  ghost predicate TakesOrGives(s: State, s': State, step: Step, c: int) {
    if c !in s.jobs then
      && step.Reserve? && c in s'.jobs && s'.jobs[c].path !in s.disk && s'.jobs == s.jobs[c := s'.jobs[c]]
      && s'.disk.Keys == s.disk.Keys + {s'.jobs[c].path} && s'.committed.Keys == s.committed.Keys
    else
      && s'.jobs == s.jobs - {c}
      && var p := s.jobs[c].path;
      || ((step.CreateFileRow? || step.CommitRow?)
          && s'.disk.Keys == s.disk.Keys && s'.committed.Keys == s.committed.Keys + {p})
      || (step.Cleanup? && step.unlinked && s'.disk.Keys == s.disk.Keys - {p} && s'.committed.Keys == s.committed.Keys)
      || (Leaves(s, step, p) && s'.disk.Keys == s.disk.Keys && s'.committed.Keys == s.committed.Keys)
  }

  lemma JobPaths(s: State, s': State, step: Step, c: int)
    requires Invariant(s) && TakesOrGives(s, s', step, c)
    ensures forall p :: Held(s', p) <==>
              if c in s.jobs then Held(s, p) && p != s.jobs[c].path else Held(s, p) || p == s'.jobs[c].path
  {
    forall p ensures Held(s', p) <==>
              if c in s.jobs then Held(s, p) && p != s.jobs[c].path else Held(s, p) || p == s'.jobs[c].path
    {
      if Held(s, p) {
        var d :| d in s.jobs && s.jobs[d].path == p;
        assert d != c ==> d in s'.jobs && s'.jobs[d].path == p;
      }
      if c !in s.jobs && p == s'.jobs[c].path {
        assert c in s'.jobs;
      }
    }
  }

  lemma LeftNow(s0: State, steps: seq<Step>, step: Step, p: int)
    ensures Left(s0, steps + [step], p) <==> Left(s0, steps, p) || Leaves(Run(Next, s0, steps), step, p)
  {
    LeftBefore(s0, steps, step, p);
    LastStep(s0, steps, step);
  }

  lemma StepKeepsAccount(s0: State, steps: seq<Step>, step: Step)
    requires Invariant(Run(Next, s0, steps)) && Accounted(s0, steps, Run(Next, s0, steps))
    ensures Accounted(s0, steps + [step], Next(Run(Next, s0, steps), step))
  {
    var s := Run(Next, s0, steps);
    var s', c := Next(s, step), if step.Tables? then 0 else step.caller;
    StepMovesPath(s, step);
    StepLeavesOthers(s, step);
    if TakesOrGives(s, s', step, c) {
      JobPaths(s, s', step, c);
      MovedPathAccounted(s0, steps, step, s', c);
    } else {
      forall p ensures Held(s', p) <==> Held(s, p) {
        SameHeld(s, s', p);
      }
      forall p ensures Left(s0, steps + [step], p) <==> Left(s0, steps, p) {
        LeftNow(s0, steps, step, p);
      }
    }
  }

  lemma SameHeld(s: State, s': State, p: int)
    requires SamePaths(s, s')
    ensures Held(s', p) <==> Held(s, p)
  {
    if Held(s, p) {
      var c :| c in s.jobs && s.jobs[c].path == p;
      assert c in s'.jobs;
    }
  }

  lemma MovedPathAccounted(s0: State, steps: seq<Step>, step: Step, s': State, c: int)
    requires Invariant(Run(Next, s0, steps)) && Accounted(s0, steps, Run(Next, s0, steps))
    requires !step.Tables? && c == step.caller && TakesOrGives(Run(Next, s0, steps), s', step, c)
    requires var s := Run(Next, s0, steps);
             forall p | p in s.disk && !Held(s, p) :: p in s'.disk && s'.disk[p] == s.disk[p]
    requires var s := Run(Next, s0, steps);
             forall p :: Held(s', p) <==>
               if c in s.jobs then Held(s, p) && p != s.jobs[c].path else Held(s, p) || p == s'.jobs[c].path
    ensures Accounted(s0, steps + [step], s')
  {
    var s := Run(Next, s0, steps);
    forall p ensures Left(s0, steps + [step], p) <==> Left(s0, steps, p) || Leaves(s, step, p) {
      LeftNow(s0, steps, step, p);
    }
    if c in s.jobs {
      assert Held(s, s.jobs[c].path) && s.jobs[c].path in s.disk && s.jobs[c].path !in s.committed;
    }
  }

  /** In every run, whatever the disk held before: what it held is untouched, and a blob is on it if and only if it was
      there before, is committed, belongs to one request under way, or was left by a request whose unlink was refused or
      whose commit threw. So a failed upload whose unlink succeeds leaves nothing. */
  lemma {:induction false} DiskIsAccounted(users: map<int, string>, groupIds: map<string, int>, disk: map<int, string>,
                                           steps: seq<Step>)
    ensures var s0 := Init(users, groupIds, disk); Accounted(s0, steps, Run(Next, s0, steps))
    decreases |steps|
  {
    var s0 := Init(users, groupIds, disk);
    if steps == [] {
      assert forall p :: !Left(s0, steps, p) && !Held(s0, p);
    } else {
      var n := |steps| - 1;
      DiskIsAccounted(users, groupIds, disk, steps[..n]);
      RunsKeepContent(users, groupIds, disk, steps[..n]);
      RunOneMore(Next, s0, steps[..n], steps[n]);
      assert steps == steps[..n] + [steps[n]];
      StepKeepsAccount(s0, steps[..n], steps[n]);
    }
  }

  // ------------------------------------------------------------ one upload

  /** The state once the content is written to the reserved path. */
  function Uploaded(s: State, c: int, path: int, content: string): State {
    s.(disk := s.disk[path := content], jobs := s.jobs[c := Filled(path, content)])
  }

  lemma UploadFills(s: State, c: int, path: int, content: string)
    requires c !in s.jobs && path !in s.disk
    ensures Next(Next(Next(s, Reserve(c, path, content)), WriteSome(c, |content|)), FinishWriting(c))
            == Uploaded(s, c, path, content)
  {
    assert content[..|content|] == content;
    assert s.disk[path := ""][path := content] == s.disk[path := content];
    assert s.jobs[c := Filling(path, content, 0)][c := Filling(path, content, |content|)][c := Filled(path, content)]
           == s.jobs[c := Filled(path, content)];
  }

  /** The call of an upload, as the version protocol sees it. */
  function CallSteps(c: int, f: int, path: int, newId: int, snapshot: string, now: int): seq<FileVersionProtocol.Step> {
    [FileVersionProtocol.ReadFile(c, f), FileVersionProtocol.ReadVersion(c, newId, snapshot, path, now),
     FileVersionProtocol.Write(c)]
  }

  /** One upload from its reservation to its commit. */
  function UploadSteps(c: int, f: int, path: int, content: string, newId: int, snapshot: string, now: int): seq<Step> {
    [Reserve(c, path, content), WriteSome(c, |content|), FinishWriting(c), StartCall(c, f),
     ReadVersionRow(c, newId, snapshot, now), CommitRow(c)]
  }

  lemma CallCommits(s: State, c: int, f: int, newId: int, snapshot: string, now: int)
    requires c in s.jobs && s.jobs[c].Filled? && c !in s.core.calls && newId !in s.core.db.versions
    requires newId in Run(FileVersionProtocol.Next, s.core, CallSteps(c, f, s.jobs[c].path, newId, snapshot, now)).db.versions
    ensures Next(Next(Next(s, StartCall(c, f)), ReadVersionRow(c, newId, snapshot, now)), CommitRow(c))
            == s.(core := Run(FileVersionProtocol.Next, s.core, CallSteps(c, f, s.jobs[c].path, newId, snapshot, now)),
                  jobs := s.jobs - {c}, committed := s.committed[s.jobs[c].path := s.jobs[c].content])
  {
    var path, content := s.jobs[c].path, s.jobs[c].content;
    RunOfThree(FileVersionProtocol.Next, s.core, FileVersionProtocol.ReadFile(c, f),
               FileVersionProtocol.ReadVersion(c, newId, snapshot, path, now), FileVersionProtocol.Write(c));
    assert s.jobs[c := InCall(path, content)] - {c} == s.jobs - {c};
  }

  /** An upload that nothing comes between does what its call does, and puts its content there; it succeeds if the call
      does. */
  lemma UploadFollowsCall(s: State, c: int, f: int, path: int, content: string, newId: int, snapshot: string, now: int)
    requires c !in s.jobs && c !in s.core.calls && path !in s.disk && newId !in s.core.db.versions
    requires newId in Run(FileVersionProtocol.Next, s.core, CallSteps(c, f, path, newId, snapshot, now)).db.versions
    ensures Run(Next, s, UploadSteps(c, f, path, content, newId, snapshot, now))
            == s.(core := Run(FileVersionProtocol.Next, s.core, CallSteps(c, f, path, newId, snapshot, now)),
                  disk := s.disk[path := content], committed := s.committed[path := content])
  {
    UploadFills(s, c, path, content);
    CallCommits(Uploaded(s, c, path, content), c, f, newId, snapshot, now);
    RunOfSix(Next, s, Reserve(c, path, content), WriteSome(c, |content|), FinishWriting(c), StartCall(c, f),
             ReadVersionRow(c, newId, snapshot, now), CommitRow(c));
    assert s.jobs[c := Filled(path, content)] - {c} == s.jobs;
  }

  /** From any state reached with the file within its bound: an upload that nothing comes between succeeds, and from then on
      the file's current version has the number after the one before, the name snapshot, path and time supplied, and a
      download of it gives the content supplied. */
  lemma UndisturbedUpload(s: State, c: int, f: int, path: int, content: string, newId: int, snapshot: string, now: int)
    requires FileVersionProtocol.Invariant(s.core, f) && f in s.core.db.files && s.core.db.files[f].maxVersionCount != 0
    requires c !in s.jobs && c !in s.core.calls && path !in s.disk && newId !in s.core.issued
    ensures FileVersionProtocol.HasCurrent(s.core.db, f)
    ensures var e := Run(Next, s, UploadSteps(c, f, path, content, newId, snapshot, now));
            && GetCurrentVersion(e.core.db, f)
               == Ok(FileVersion(f, FileVersionProtocol.CurrentNumber(s.core.db, f) + 1, snapshot, path, now))
            && OpenDownload(e.disk, path) == Ok(content) && e.disk == s.disk[path := content]
            && e.committed == s.committed[path := content] && e.jobs == s.jobs
  {
    FileVersionHistory.UndisturbedCallAppends(s.core, c, f, newId, snapshot, path, now);
    var row := FileVersion(f, FileVersionProtocol.CurrentNumber(s.core.db, f) + 1, snapshot, path, now);
    UploadServes(s, c, f, path, content, newId, snapshot, now, row);
  }

  lemma UploadServes(s: State, c: int, f: int, path: int, content: string, newId: int, snapshot: string, now: int,
                     row: FileVersion)
    requires c !in s.jobs && c !in s.core.calls && path !in s.disk && newId !in s.core.db.versions
    requires var db := Run(FileVersionProtocol.Next, s.core, CallSteps(c, f, path, newId, snapshot, now)).db;
             f in db.files && db.files[f].currentVersionId == newId && newId in db.versions && db.versions[newId] == row
    ensures var e := Run(Next, s, UploadSteps(c, f, path, content, newId, snapshot, now));
            && GetCurrentVersion(e.core.db, f) == Ok(row)
            && OpenDownload(e.disk, path) == Ok(content) && e.disk == s.disk[path := content]
            && e.committed == s.committed[path := content] && e.jobs == s.jobs
  {
    UploadFollowsCall(s, c, f, path, content, newId, snapshot, now);
  }

  /** A creation that nothing comes between, of a free name by a user with a group: the file is there as asked for, with its
      first version and read-write access of that group, and a download of it gives the empty content. */
  lemma UndisturbedCreation(s: State, c: int, path: int, f: int, v: int, name: string, user: int, bound: UInt32, now: int)
    requires Schema(s.core.db) && c !in s.jobs && path !in s.disk
    requires f !in s.core.issued && v !in s.core.issued && f != v && f !in s.core.db.files && v !in s.core.db.versions
    requires user in s.core.db.users && s.core.db.users[user] in s.core.db.groupIds
    requires forall g | g in s.core.db.files :: s.core.db.files[g].name != name
    ensures var e := Run(Next, s, [Reserve(c, path, ""), FinishWriting(c), CreateFileRow(c, f, v, name, user, bound, now)]);
            && e.core.db.files == s.core.db.files[f := File(name, v, bound, now, user)]
            && e.core.db.versions == s.core.db.versions[v := FileVersion(f, 1, name, path, now)]
            && e.core.db.acl == s.core.db.acl[(f, s.core.db.groupIds[s.core.db.users[user]]) := ReadWrite]
            && OpenDownload(e.disk, path) == Ok("") && e.disk == s.disk[path := ""]
            && e.committed == s.committed[path := ""] && e.jobs == s.jobs
  {
    FileCreated(s.core.db, f, v, name, user, path, bound, now);
    RunOfThree(Next, s, Reserve(c, path, ""), FinishWriting(c), CreateFileRow(c, f, v, name, user, bound, now));
    assert s.jobs[c := Filling(path, "", 0)][c := Filled(path, "")] == s.jobs[c := Filled(path, "")];
    assert Next(Next(s, Reserve(c, path, "")), FinishWriting(c)) == Uploaded(s, c, path, "");
    RowIsCreated(Uploaded(s, c, path, ""), c, f, v, name, user, bound, now);
    assert s.jobs[c := Filled(path, "")] - {c} == s.jobs;
  }

  lemma RowIsCreated(s: State, c: int, f: int, v: int, name: string, user: int, bound: UInt32, now: int)
    requires c in s.jobs && s.jobs[c].Filled? && f !in s.core.issued && v !in s.core.issued && f != v
    requires CreateFile(s.core.db, f, v, name, user, s.jobs[c].path, bound, now).Ok?
    ensures var e := Next(s, CreateFileRow(c, f, v, name, user, bound, now));
            && Ok(e.core.db) == CreateFile(s.core.db, f, v, name, user, s.jobs[c].path, bound, now)
            && e.disk == s.disk && e.committed == s.committed[s.jobs[c].path := s.jobs[c].content] && e.jobs == s.jobs - {c}
  {
  }

  /** An upload whose writing fails, and whose unlink succeeds, leaves everything as it was ... */
  lemma FailedWriteLeavesNothing(s: State, c: int, path: int, content: string)
    requires c !in s.jobs && path !in s.disk
    ensures Run(Next, s, [Reserve(c, path, content), WriteFails(c), Cleanup(c, true)]) == s
  {
    RunOfThree(Next, s, Reserve(c, path, content), WriteFails(c), Cleanup(c, true));
    assert s.jobs[c := Filling(path, content, 0)][c := Failed(path)] - {c} == s.jobs;
    assert s.disk[path := ""] - {path} == s.disk;
  }

  /** ... and so does a written upload of a file that is not there. */
  lemma RefusedCallLeavesNothing(s: State, c: int, path: int, content: string, f: int)
    requires c !in s.jobs && path !in s.disk && f !in s.core.db.files
    ensures var written := Next(Next(Next(s, Reserve(c, path, content)), WriteSome(c, |content|)), FinishWriting(c));
            Next(Next(written, StartCall(c, f)), Cleanup(c, true)) == s
  {
    UploadFills(s, c, path, content);
    assert s.jobs[c := Filled(path, content)][c := Failed(path)] - {c} == s.jobs;
    assert s.disk[path := content] - {path} == s.disk;
  }
}
