/** The writer's units of work: one writer connection, one permit, and the guard object that begins a
    transaction, commits or rolls back, and gives the permit back. `D` is the contents of the database. */
module UnitOfWork {
  import opened Runs

  /** What COMMIT did: done; refused with the transaction still open; refused and rolled back by the engine. */
  datatype CommitOutcome = Committed | StillOpen | RolledBack

  datatype Connection<D> = Connection(stored: D, working: D, open: bool)

  /** The guard with the connection and the permit it works on. */
  datatype Guard<D> = Guard(connection: Connection<D>, permits: nat, finished: bool, owned: bool)

  datatype Call<D> = Write(contents: D) | Commit(outcome: CommitOutcome) | Rollback(ok: bool)

  function Dropped<D>(c: Connection<D>): Connection<D> {
    c.(working := c.stored, open := false)
  }

  function CloseGuard<D>(g: Guard<D>): Guard<D> {
    if !g.owned then g else g.(owned := false, permits := g.permits + 1)
  }

  /** COMMIT without a transaction is refused, like any other refusal: the guard stays unfinished. */
  function CommitGuard<D>(g: Guard<D>, outcome: CommitOutcome): Guard<D> {
    if g.finished || !g.connection.open || outcome.StillOpen? then g
    else if outcome.RolledBack? then g.(connection := Dropped(g.connection))
    else CloseGuard(g.(connection := g.connection.(stored := g.connection.working, open := false), finished := true))
  }

  /** A refused ROLLBACK is ignored. Without a transaction it is refused and there is nothing to drop. */
  function RollbackGuard<D>(g: Guard<D>, ok: bool): Guard<D> {
    if g.finished then g
    else CloseGuard(g.(connection := if ok && g.connection.open then Dropped(g.connection) else g.connection,
                       finished := true))
  }

  function Destroyed<D>(g: Guard<D>, ok: bool): Guard<D> {
    CloseGuard(RollbackGuard(g, ok))
  }

  function GuardStep<D>(g: Guard<D>, call: Call<D>): Guard<D> {
    match call
    case Write(contents) => g.(connection := g.connection.(working := contents))
    case Commit(outcome) => CommitGuard(g, outcome)
    case Rollback(ok) => RollbackGuard(g, ok)
  }

  /** Statements are run inside the transaction only; commits and rollbacks may come in any number and order. */
  predicate Proper<D>(g: Guard<D>, call: Call<D>) {
    call.Write? ==> !g.finished && g.connection.open
  }

  predicate JustBegun<D>(g: Guard<D>) {
    !g.finished && g.owned && g.connection.open
  }

  // ------------------------------------------------------------ what one unit does, read off its calls

  /** The contents after the unit: those last written before the first successful commit if no rollback came
      before it, else the ones the unit started from. */
  function Effect<D>(stored: D, pending: D, calls: seq<Call<D>>): D {
    if calls == [] then stored
    else
      match calls[0]
      case Write(contents) => Effect(stored, contents, calls[1..])
      case Commit(outcome) =>
        if outcome.Committed? then pending
        else if outcome.RolledBack? then stored
        else Effect(stored, pending, calls[1..])
      case Rollback(_) => stored
  }

  /** Whether the transaction stays open on the shared connection: the ROLLBACK that ended it was refused. */
  predicate LeftOpen<D>(calls: seq<Call<D>>, ok: bool) {
    if calls == [] then !ok
    else
      match calls[0]
      case Write(_) => LeftOpen(calls[1..], ok)
      case Commit(outcome) => outcome.StillOpen? && LeftOpen(calls[1..], ok)
      case Rollback(done) => !done
  }

  /** A finished guard has given its permit back and does nothing more. */
  lemma {:induction false} FinishedStays<D>(g: Guard<D>, calls: seq<Call<D>>, ok: bool)
    requires g.finished && !g.owned && Allowed(GuardStep<D>, Proper<D>, g, calls)
    ensures Destroyed(Run(GuardStep<D>, g, calls), ok) == g
    decreases |calls|
  {
    if calls != [] {
      FinishedStays(GuardStep(g, calls[0]), calls[1..], ok);
    }
  }

  /** Without a transaction the guard still gives the permit back exactly once. */
  lemma {:induction false} ClosedUnitReleases<D>(g: Guard<D>, calls: seq<Call<D>>, ok: bool)
    requires !g.finished && g.owned && !g.connection.open && Allowed(GuardStep<D>, Proper<D>, g, calls)
    ensures Destroyed(Run(GuardStep<D>, g, calls), ok) == Guard(g.connection, g.permits + 1, true, false)
    decreases |calls|
  {
    if calls != [] {
      if calls[0].Rollback? {
        FinishedStays(GuardStep(g, calls[0]), calls[1..], ok);
      } else {
        ClosedUnitReleases(g, calls[1..], ok);
      }
    }
  }

  /** Whatever its body calls, a unit ends finished, has given the permit back exactly once, has stored
      exactly its effect, and leaves the transaction open exactly if the ROLLBACK that ended it was refused. */
  lemma {:induction false} UnitReleasesOnce<D>(g: Guard<D>, calls: seq<Call<D>>, ok: bool)
    requires JustBegun(g) && Allowed(GuardStep<D>, Proper<D>, g, calls)
    ensures var e := Destroyed(Run(GuardStep<D>, g, calls), ok);
            && e.finished && !e.owned && e.permits == g.permits + 1
            && e.connection.stored == Effect(g.connection.stored, g.connection.working, calls)
            && (e.connection.open <==> LeftOpen(calls, ok))
    decreases |calls|
  {
    if calls != [] {
      var next := GuardStep(g, calls[0]);
      if next.finished {
        FinishedStays(next, calls[1..], ok);
      } else if !next.connection.open {
        ClosedUnitReleases(next, calls[1..], ok);
      } else {
        UnitReleasesOnce(next, calls[1..], ok);
      }
    }
  }

  /** A unit without a successful commit leaves the contents as they were. */
  lemma {:induction false} UncommittedChangesNothing<D>(stored: D, pending: D, calls: seq<Call<D>>)
    requires forall i | 0 <= i < |calls| :: !(calls[i].Commit? && calls[i].outcome.Committed?)
    ensures Effect(stored, pending, calls) == stored
    decreases |calls|
  {
    if calls != [] && !calls[0].Rollback? {
      UncommittedChangesNothing(stored, if calls[0].Write? then calls[0].contents else pending, calls[1..]);
    }
  }

  /** The call neither commits nor ends the transaction. */
  predicate KeepsOpen<D>(call: Call<D>) {
    call.Write? || (call.Commit? && call.outcome.StillOpen?)
  }

  /** A unit whose first successful commit comes before any rollback stores what was last written before that commit. */
  lemma {:induction false} CommitStoresLastWrite<D>(stored: D, pending: D, calls: seq<Call<D>>, contents: D, rest: seq<Call<D>>)
    requires forall i | 0 <= i < |calls| :: KeepsOpen(calls[i])
    ensures Effect(stored, pending, calls + [Write(contents), Commit(Committed)] + rest) == contents
    decreases |calls|
  {
    var all := calls + [Write(contents), Commit(Committed)] + rest;
    if calls == [] {
      assert all[1..] == [Commit(Committed)] + rest && all[1..][1..] == rest;
    } else {
      assert all[1..] == calls[1..] + [Write(contents), Commit(Committed)] + rest;
      CommitStoresLastWrite(stored, if calls[0].Write? then calls[0].contents else pending, calls[1..], contents, rest);
    }
  }

  // ------------------------------------------------------------ units one after another

  /** The body of one service call: whether BEGIN would go through, what it calls, whether the destructor's
      ROLLBACK would go through. */
  datatype Work<D> = Work(beginOk: bool, calls: seq<Call<D>>, endOk: bool)

  datatype Writer<D> = Writer(connection: Connection<D>, permits: nat)

  /** Taking the permit and beginning. BEGIN is refused inside an open transaction. */
  function Begun<D>(w: Writer<D>): Guard<D>
    requires w.permits > 0
  {
    Guard(w.connection.(working := w.connection.stored, open := true), w.permits - 1, false, true)
  }

  predicate Begins<D>(w: Writer<D>, work: Work<D>) {
    work.beginOk && !w.connection.open
  }

  /** One service call that writes. A refused BEGIN gives the permit back at once. */
  function Serve<D>(w: Writer<D>, work: Work<D>): Writer<D> {
    if w.permits == 0 || !Begins(w, work) then w
    else
      var e := Destroyed(Run(GuardStep<D>, Begun(w), work.calls), work.endOk);
      Writer(e.connection, e.permits)
  }

  predicate Runnable<D>(w: Writer<D>, work: Work<D>) {
    w.permits > 0 && (Begins(w, work) ==> Allowed(GuardStep<D>, Proper<D>, Begun(w), work.calls))
  }

  /** The contents after a series of service calls, and whether a refused ROLLBACK has locked the writer: from
      then on no BEGIN goes through. */
  function AllEffects<D>(stored: D, stuck: bool, works: seq<Work<D>>): (D, bool)
    decreases |works|
  {
    if works == [] then (stored, stuck)
    else if stuck || !works[0].beginOk then AllEffects(stored, stuck, works[1..])
    else AllEffects(Effect(stored, stored, works[0].calls), LeftOpen(works[0].calls, works[0].endOk), works[1..])
  }

  /** The permit always comes back, the stored contents are the effects of the calls in order, and the
      writer is locked out exactly after a refused ROLLBACK. */
  lemma {:induction false} WriterServesInOrder<D>(w: Writer<D>, works: seq<Work<D>>)
    requires w.permits == 1 && Allowed(Serve<D>, Runnable<D>, w, works)
    ensures var e := Run(Serve<D>, w, works);
            && e.permits == 1
            && (e.connection.stored, e.connection.open) == AllEffects(w.connection.stored, w.connection.open, works)
    decreases |works|
  {
    if works != [] {
      if Begins(w, works[0]) {
        UnitReleasesOnce(Begun(w), works[0].calls, works[0].endOk);
      }
      WriterServesInOrder(Serve(w, works[0]), works[1..]);
    }
  }

  /** After a refused ROLLBACK that left its transaction open, no series of service calls changes anything any more. */
  lemma {:induction false} LockedOutForGood<D>(w: Writer<D>, works: seq<Work<D>>)
    requires w.connection.open
    ensures Run(Serve<D>, w, works) == w
    decreases |works|
  {
    if works != [] {
      LockedOutForGood(w, works[1..]);
    }
  }

  // ------------------------------------------------------------ the objects

  class WriterConnection<D> {
    var stored: D
    var working: D
    var open: bool

    function Value(): Connection<D>
      reads this
    {
      Connection(stored, working, open)
    }

    constructor (contents: D)
      ensures Value() == Connection(contents, contents, false)
    {
      stored, working, open := contents, contents, false;
    }

    method ExecBegin(accepted: bool) returns (ok: bool)
      modifies this
      ensures ok == (accepted && !old(open))
      ensures Value() == if ok then Connection(old(stored), old(stored), true) else old(Value())
    {
      ok := accepted && !open;
      if ok {
        working, open := stored, true;
      }
    }

    method ExecCommit(outcome: CommitOutcome) returns (ok: bool)
      modifies this
      ensures ok == (outcome.Committed? && old(open))
      ensures ok ==> Value() == Connection(old(working), old(working), false)
      ensures !ok ==> Value() == if outcome.RolledBack? && old(open) then Dropped(old(Value())) else old(Value())
    {
      ok := outcome.Committed? && open;
      if ok {
        stored, open := working, false;
      } else if outcome.RolledBack? && open {
        working, open := stored, false;
      }
    }

    method ExecRollback(accepted: bool) returns (ok: bool)
      modifies this
      ensures ok == (accepted && old(open))
      ensures Value() == if ok then Dropped(old(Value())) else old(Value())
    {
      ok := accepted && open;
      if ok {
        working, open := stored, false;
      }
    }
  }

  class SqliteDatabase<D> {
    const writer: WriterConnection<D>
    var writerPermits: nat

    function Value(): Writer<D>
      reads this, writer
    {
      Writer(writer.Value(), writerPermits)
    }

    constructor (writer: WriterConnection<D>)
      ensures this.writer == writer && writerPermits == 1
    {
      this.writer, writerPermits := writer, 1;
    }

    method ReleaseWriter()
      modifies this
      ensures writerPermits == old(writerPermits) + 1
    {
      writerPermits := writerPermits + 1;
    }

    /** The caller has waited until the permit is there; null stands for the exception of a refused BEGIN. */
    method CreateWriteUnitOfWork(beginAccepted: bool) returns (unit: WriteUnitOfWork?<D>)
      requires writerPermits > 0
      modifies this, writer
      ensures unit != null <==> beginAccepted && !old(writer.open)
      ensures unit != null ==> fresh(unit) && unit.database == this && unit.Value() == Begun(old(Value()))
      ensures unit == null ==> Value() == old(Value())
    {
      writerPermits := writerPermits - 1;
      var ok := writer.ExecBegin(beginAccepted);
      if ok {
        unit := new WriteUnitOfWork(this);
      } else {
        unit := null;
        ReleaseWriter();
      }
    }
  }

  class WriteUnitOfWork<D> {
    const database: SqliteDatabase<D>
    var owner: SqliteDatabase?<D>
    var finished: bool

    ghost predicate Valid()
      reads this
    {
      owner == null || owner == database
    }

    function Value(): Guard<D>
      reads this, database, database.writer
    {
      Guard(database.writer.Value(), database.writerPermits, finished, owner != null)
    }

    constructor (database: SqliteDatabase<D>)
      ensures this.database == database && Valid() && owner != null && !finished
    {
      this.database, owner, finished := database, database, false;
    }

    method CommitTransaction(outcome: CommitOutcome)
      requires Valid()
      modifies this, database, database.writer
      ensures Valid() && Value() == CommitGuard(old(Value()), outcome)
    {
      if finished {
        return;
      }
      var ok := database.writer.ExecCommit(outcome);
      if !ok {
        return;
      }
      finished := true;
      Close();
    }

    method RollbackTransaction(accepted: bool)
      requires Valid()
      modifies this, database, database.writer
      ensures Valid() && Value() == RollbackGuard(old(Value()), accepted)
    {
      if finished {
        return;
      }
      var _ := database.writer.ExecRollback(accepted);
      finished := true;
      Close();
    }

    method Close()
      requires Valid()
      modifies this`owner, database
      ensures Valid() && Value() == CloseGuard(old(Value()))
    {
      if owner == null {
        return;
      }
      owner.ReleaseWriter();
      owner := null;
    }

    method Destroy(accepted: bool)
      requires Valid()
      modifies this, database, database.writer
      ensures Valid() && Value() == Destroyed(old(Value()), accepted)
    {
      RollbackTransaction(accepted);
      Close();
    }
  }
}
