/** The reader pool and the writer of the database object: a counting semaphore, a mutex and a queue for the
    reader connections, a binary semaphore for the writer. Threads run service calls, each a sequence of
    units of work taken and given back one after the other. */
module ConnectionPool {
  import opened Runs

  /** A unit of work of a service call. No call waits for a unit while it holds another. */
  datatype Unit = Read | Write

  /** Where a thread stands. A reader unit: waiting for a permit, permit taken, in the mutex to pop, holding a
      connection, closing, in the mutex to push, pushed but the permit not yet returned. A writer unit: waiting,
      holding the permit, finished but the permit not yet returned. */
  datatype Pc =
    | Between
    | AwaitReader
    | Permitted
    | Popping
    | Holding(conn: nat)
    | Closing(conn: nat)
    | Pushing(conn: nat)
    | Pushed
    | AwaitWriter
    | InTransaction
    | Finished

  /** `units`: the units of work the thread's calls still take after the present one. */
  datatype Thread = Thread(pc: Pc, units: seq<Unit>)

  datatype Pool = Pool(size: nat, permits: nat, available: seq<nat>, mutex: bool, writerPermits: nat,
                       threads: seq<Thread>)

  // ------------------------------------------------------------ steps

  /** Whether thread `t` can take its next step; the waits are for a permit and for the mutex. */
  predicate Enabled(s: Pool, t: nat) {
    && t < |s.threads|
    && match s.threads[t].pc {
         case Between => s.threads[t].units != []
         case AwaitReader => s.permits > 0
         case Permitted => !s.mutex
         case Closing(_) => !s.mutex
         case AwaitWriter => s.writerPermits > 0
         case _ => true
       }
  }

  function Move(s: Pool, t: nat, pc: Pc): Pool
    requires t < |s.threads|
  {
    s.(threads := s.threads[t := s.threads[t].(pc := pc)])
  }

  /** The next step of thread `t`; nothing while it has to wait. Popping an empty queue is undefined; here it
      leaves the thread stuck, and `PopFindsConnection` shows that it never comes to that. */
  function Next(s: Pool, t: nat): Pool {
    if !Enabled(s, t) then s
    else
      match s.threads[t].pc
      case Between =>
        s.(threads := s.threads[t := Thread(if s.threads[t].units[0].Read? then AwaitReader else AwaitWriter,
                                            s.threads[t].units[1..])])
      case AwaitReader => Move(s, t, Permitted).(permits := s.permits - 1)
      case Permitted => Move(s, t, Popping).(mutex := true)
      case Popping =>
        if s.available == [] then s
        else Move(s, t, Holding(s.available[0])).(available := s.available[1..], mutex := false)
      case Holding(conn) => Move(s, t, Closing(conn))
      case Closing(conn) => Move(s, t, Pushing(conn)).(mutex := true)
      case Pushing(conn) => Move(s, t, Pushed).(available := s.available + [conn], mutex := false)
      case Pushed => Move(s, t, Between).(permits := s.permits + 1)
      case AwaitWriter => Move(s, t, InTransaction).(writerPermits := s.writerPermits - 1)
      case InTransaction => Move(s, t, Finished)
      case Finished => Move(s, t, Between).(writerPermits := s.writerPermits + 1)
  }

  function Numbered(n: nat): (q: seq<nat>)
    ensures |q| == n && forall i | 0 <= i < n :: q[i] == i
  {
    if n == 0 then [] else Numbered(n - 1) + [n - 1]
  }

  function Starting(work: seq<seq<Unit>>): seq<Thread> {
    if work == [] then [] else [Thread(Between, work[0])] + Starting(work[1..])
  }

  /** The constructor: all connections queued, as many permits, one writer permit; then threads with any work. */
  function Init(size: nat, work: seq<seq<Unit>>): Pool {
    Pool(size, size, Numbered(size), false, 1, Starting(work))
  }

  // ------------------------------------------------------------ ghost accounting

  predicate NotPopped(pc: Pc) {
    pc == Permitted || pc == Popping
  }

  predicate NotReleased(pc: Pc) {
    pc == Pushed
  }

  predicate HasConnection(pc: Pc) {
    pc.Holding? || pc.Closing? || pc.Pushing?
  }

  predicate InMutex(pc: Pc) {
    pc == Popping || pc.Pushing?
  }

  predicate HasWriter(pc: Pc) {
    pc == InTransaction || pc == Finished
  }

  function One(b: bool): nat {
    if b then 1 else 0
  }

  /** How many threads stand where `p` says. */
  function Count(threads: seq<Thread>, p: Pc -> bool): nat {
    if threads == [] then 0 else One(p(threads[0].pc)) + Count(threads[1..], p)
  }

  predicate Holds(s: Pool, t: nat, conn: nat) {
    && t < |s.threads|
    && (s.threads[t].pc == Holding(conn) || s.threads[t].pc == Closing(conn) || s.threads[t].pc == Pushing(conn))
  }

  /** Queue length = semaphore count + threads that took a permit but have not popped + threads that have pushed
      but not released; queued and held connections are all there are; the mutex has its one owner; the writer's
      permit is either there or with one thread. */
  ghost predicate Accounts(s: Pool) {
    && |s.available| == s.permits + Count(s.threads, NotPopped) + Count(s.threads, NotReleased)
    && |s.available| + Count(s.threads, HasConnection) == s.size
    && One(s.mutex) == Count(s.threads, InMutex)
    && s.writerPermits + Count(s.threads, HasWriter) == 1
  }

  /** Every held connection is in the pool's range, not queued, and held by one thread. */
  ghost predicate HeldOnce(s: Pool) {
    && (forall t: nat, c: nat | Holds(s, t, c) :: c < s.size && c !in s.available)
    && (forall t: nat, u: nat, c: nat | Holds(s, t, c) && Holds(s, u, c) :: t == u)
  }

  ghost predicate QueuedOnce(s: Pool) {
    && (forall i, j | 0 <= i < j < |s.available| :: s.available[i] != s.available[j])
    && (forall c: nat | c in s.available :: c < s.size)
  }

  ghost predicate NoneLost(s: Pool) {
    forall c: nat | c < s.size && c !in s.available :: exists t: nat :: Holds(s, t, c)
  }

  /** Every connection is in exactly one place: once in the queue, or with exactly one thread. */
  ghost predicate Conserves(s: Pool) {
    QueuedOnce(s) && HeldOnce(s) && NoneLost(s)
  }

  ghost predicate Invariant(s: Pool) {
    Accounts(s) && Conserves(s)
  }

  lemma {:induction false} CountUpdate(threads: seq<Thread>, t: nat, x: Thread, p: Pc -> bool)
    requires t < |threads|
    ensures Count(threads[t := x], p) + One(p(threads[t].pc)) == Count(threads, p) + One(p(x.pc))
  {
    if t == 0 {
      assert threads[t := x][1..] == threads[1..];
    } else {
      assert threads[t := x][1..] == threads[1..][t - 1 := x];
      CountUpdate(threads[1..], t - 1, x, p);
    }
  }

  lemma {:induction false} CountAtLeast(threads: seq<Thread>, t: nat, p: Pc -> bool)
    requires t < |threads| && p(threads[t].pc)
    ensures Count(threads, p) >= 1
  {
    if t > 0 {
      CountAtLeast(threads[1..], t - 1, p);
    }
  }

  lemma {:induction false} CountFinds(threads: seq<Thread>, p: Pc -> bool) returns (t: nat)
    requires Count(threads, p) >= 1
    ensures t < |threads| && p(threads[t].pc)
  {
    if p(threads[0].pc) {
      t := 0;
    } else {
      var u := CountFinds(threads[1..], p);
      t := u + 1;
    }
  }

  /** `front()` is never called on an empty queue. */
  lemma PopFindsConnection(s: Pool, t: nat)
    requires Accounts(s) && t < |s.threads| && s.threads[t].pc == Popping
    ensures s.available != []
  {
    CountAtLeast(s.threads, t, NotPopped);
  }

  /** A thread's move changes each count by what its old and its new place contribute. */
  lemma MoveCounts(before: seq<Thread>, after: seq<Thread>, t: nat, p: Pc -> bool)
    requires t < |before| == |after| && after == before[t := after[t]]
    ensures Count(after, p) + One(p(before[t].pc)) == Count(before, p) + One(p(after[t].pc))
  {
    CountUpdate(before, t, after[t], p);
  }

  /** The reader's books: queue length against permits, and all connections. */
  lemma StepKeepsReaderAccounts(s: Pool, t: nat)
    requires Accounts(s) && Enabled(s, t)
    ensures var s' := Next(s, t);
            && |s'.available| == s'.permits + Count(s'.threads, NotPopped) + Count(s'.threads, NotReleased)
            && |s'.available| + Count(s'.threads, HasConnection) == s'.size
  {
    if s.threads[t].pc == Popping {
      PopFindsConnection(s, t);
    }
    MoveCounts(s.threads, Next(s, t).threads, t, NotPopped);
    MoveCounts(s.threads, Next(s, t).threads, t, NotReleased);
    MoveCounts(s.threads, Next(s, t).threads, t, HasConnection);
  }

  /** The mutex has as many owners as it says, and the writer's permit is in one place. */
  lemma StepKeepsOwners(s: Pool, t: nat)
    requires Accounts(s) && Enabled(s, t)
    ensures var s' := Next(s, t);
            && One(s'.mutex) == Count(s'.threads, InMutex)
            && s'.writerPermits + Count(s'.threads, HasWriter) == 1
  {
    if InMutex(s.threads[t].pc) {
      CountAtLeast(s.threads, t, InMutex);
    }
    if s.threads[t].pc == Popping {
      PopFindsConnection(s, t);
    }
    MoveCounts(s.threads, Next(s, t).threads, t, InMutex);
    MoveCounts(s.threads, Next(s, t).threads, t, HasWriter);
  }

  lemma StepKeepsAccounts(s: Pool, t: nat)
    requires Accounts(s)
    ensures Accounts(Next(s, t))
  {
    if Enabled(s, t) {
      StepKeepsReaderAccounts(s, t);
      StepKeepsOwners(s, t);
    }
  }

  lemma StepKeepsConnections(s: Pool, t: nat)
    requires Invariant(s)
    ensures Conserves(Next(s, t))
  {
    if Enabled(s, t) {
      var s' := Next(s, t);
      match s.threads[t].pc {
        case Popping =>
          PopFindsConnection(s, t);
          PopKeepsConnections(s, t);
        case Pushing(conn) => PushKeepsConnections(s, t, conn);
        case _ =>
          forall u: nat, c: nat ensures Holds(s', u, c) <==> Holds(s, u, c) {
          }
      }
    }
  }

  lemma PopHolds(s: Pool, t: nat)
    requires Enabled(s, t) && s.threads[t].pc == Popping && s.available != []
    ensures forall u: nat, c: nat ::
              Holds(Next(s, t), u, c) <==> (u == t && c == s.available[0]) || (u != t && Holds(s, u, c))
  {
  }

  lemma PopKeepsConnections(s: Pool, t: nat)
    requires Conserves(s) && Enabled(s, t) && s.threads[t].pc == Popping && s.available != []
    ensures Conserves(Next(s, t))
  {
    var s', conn := Next(s, t), s.available[0];
    PopHolds(s, t);
    assert s.available == [conn] + s'.available;
    assert conn in s.available;
    forall i | 0 <= i < |s'.available| ensures s'.available[i] == s.available[i + 1] && s'.available[i] != conn {
    }
    forall c: nat | c in s'.available ensures c < s'.size && c in s.available {
      assert c in [conn] + s'.available;
    }
    assert QueuedOnce(s') && HeldOnce(s');
    forall c: nat | c < s'.size && c !in s'.available ensures exists u: nat :: Holds(s', u, c) {
      if c == conn {
        assert Holds(s', t, c);
      } else {
        assert c !in s.available;
        var u: nat :| Holds(s, u, c);
        assert Holds(s', u, c);
      }
    }
  }

  lemma PushHolds(s: Pool, t: nat, conn: nat)
    requires Enabled(s, t) && s.threads[t].pc == Pushing(conn)
    ensures forall u: nat, c: nat :: Holds(Next(s, t), u, c) <==> u != t && Holds(s, u, c)
  {
  }

  lemma PushKeepsConnections(s: Pool, t: nat, conn: nat)
    requires Conserves(s) && Enabled(s, t) && s.threads[t].pc == Pushing(conn)
    ensures Conserves(Next(s, t))
  {
    var s' := Next(s, t);
    assert Holds(s, t, conn);
    PushHolds(s, t, conn);
    assert s'.available == s.available + [conn];
    forall c: nat | c in s'.available ensures c < s'.size {
      assert c in s.available || c == conn;
    }
    assert QueuedOnce(s') && HeldOnce(s');
    forall c: nat | c < s'.size && c !in s'.available ensures exists u: nat :: Holds(s', u, c) {
      assert c != conn by {
        assert s'.available[|s.available|] == conn;
      }
      assert c !in s.available by {
        assert forall x | x in s.available :: x in s'.available;
      }
      var u: nat :| Holds(s, u, c);
      assert Holds(s', u, c);
    }
  }

  lemma {:induction false} StartingCounts(work: seq<seq<Unit>>, p: Pc -> bool)
    requires !p(Between)
    ensures Count(Starting(work), p) == 0
    ensures forall t: nat | t < |Starting(work)| :: Starting(work)[t].pc == Between
  {
    if work != [] {
      StartingCounts(work[1..], p);
    }
  }

  lemma InitInvariant(size: nat, work: seq<seq<Unit>>)
    ensures Invariant(Init(size, work))
  {
    StartingCounts(work, NotPopped);
    StartingCounts(work, NotReleased);
    StartingCounts(work, HasConnection);
    StartingCounts(work, InMutex);
    StartingCounts(work, HasWriter);
    forall c | 0 <= c < size ensures c in Numbered(size) {
      assert Numbered(size)[c] == c;
    }
  }

  /** Under every schedule the books balance and every connection is in exactly one place. */
  lemma RunsKeepAccounts(size: nat, work: seq<seq<Unit>>, schedule: seq<nat>)
    ensures Invariant(Run(Next, Init(size, work), schedule))
  {
    InitInvariant(size, work);
    forall s, t: nat | Invariant(s) ensures Invariant(Next(s, t)) {
      StepKeepsAccounts(s, t);
      StepKeepsConnections(s, t);
    }
    AllAllowed(Next, (s: Pool, t: nat) => true, Init(size, work), schedule);
    RunKeeps(Next, (s: Pool, t: nat) => true, s => Invariant(s), Init(size, work), schedule);
  }

  // ------------------------------------------------------------ progress

  predicate Done(x: Thread) {
    x.pc == Between && x.units == []
  }

  /** With at least one reader connection, as long as some thread has work left some thread can move. */
  lemma SomeoneMoves(s: Pool, t: nat) returns (mover: nat)
    requires Invariant(s) && s.size > 0 && t < |s.threads| && !Done(s.threads[t])
    ensures Enabled(s, mover)
  {
    if Enabled(s, t) {
      mover := t;
    } else if s.threads[t].pc == AwaitWriter {
      mover := CountFinds(s.threads, HasWriter);
    } else {
      mover := ReaderMoves(s);
    }
  }

  /** Somebody in the reader pool moves when a permit is awaited in vain or the mutex is taken. */
  lemma ReaderMoves(s: Pool) returns (mover: nat)
    requires Invariant(s) && s.size > 0 && (s.mutex || s.permits == 0)
    ensures Enabled(s, mover)
  {
    if s.mutex {
      mover := CountFinds(s.threads, InMutex);
    } else if Count(s.threads, NotPopped) > 0 {
      mover := CountFinds(s.threads, NotPopped);
    } else if Count(s.threads, NotReleased) > 0 {
      mover := CountFinds(s.threads, NotReleased);
    } else {
      mover := CountFinds(s.threads, HasConnection);
    }
  }

  /** Without a reader connection, a thread that needs one waits forever. */
  lemma NoReaderNoRead(s: Pool, t: nat)
    requires Accounts(s) && s.size == 0 && t < |s.threads| && s.threads[t].pc == AwaitReader
    ensures !Enabled(s, t)
  {
  }

  function UnitSteps(units: seq<Unit>): nat {
    if units == [] then 0 else (if units[0].Read? then 8 else 4) + UnitSteps(units[1..])
  }

  function PcSteps(pc: Pc): nat {
    match pc
    case Between => 0
    case AwaitReader => 7
    case Permitted => 6
    case Popping => 5
    case Holding(_) => 4
    case Closing(_) => 3
    case Pushing(_) => 2
    case Pushed => 1
    case AwaitWriter => 3
    case InTransaction => 2
    case Finished => 1
  }

  /** The steps all threads still have to take. */
  function StepsLeft(threads: seq<Thread>): nat {
    if threads == [] then 0 else PcSteps(threads[0].pc) + UnitSteps(threads[0].units) + StepsLeft(threads[1..])
  }

  lemma {:induction false} StepsLeftUpdate(threads: seq<Thread>, t: nat, x: Thread)
    requires t < |threads|
    ensures StepsLeft(threads[t := x]) + PcSteps(threads[t].pc) + UnitSteps(threads[t].units)
            == StepsLeft(threads) + PcSteps(x.pc) + UnitSteps(x.units)
  {
    if t == 0 {
      assert threads[t := x][1..] == threads[1..];
    } else {
      assert threads[t := x][1..] == threads[1..][t - 1 := x];
      StepsLeftUpdate(threads[1..], t - 1, x);
    }
  }

  lemma StepTakesOne(s: Pool, t: nat)
    requires Accounts(s) && Enabled(s, t)
    ensures StepsLeft(Next(s, t).threads) + 1 == StepsLeft(s.threads)
  {
    if s.threads[t].pc == Popping {
      PopFindsConnection(s, t);
    }
    StepsLeftUpdate(s.threads, t, Next(s, t).threads[t]);
    assert Next(s, t).threads == s.threads[t := Next(s, t).threads[t]];
  }

  lemma {:induction false} RunTakesItsLength(s: Pool, schedule: seq<nat>)
    requires Invariant(s) && Allowed(Next, Enabled, s, schedule)
    ensures Invariant(Run(Next, s, schedule)) && Run(Next, s, schedule).size == s.size
    ensures StepsLeft(Run(Next, s, schedule).threads) + |schedule| == StepsLeft(s.threads)
    decreases |schedule|
  {
    if schedule != [] {
      StepTakesOne(s, schedule[0]);
      StepKeepsAccounts(s, schedule[0]);
      StepKeepsConnections(s, schedule[0]);
      RunTakesItsLength(Next(s, schedule[0]), schedule[1..]);
    }
  }

  lemma {:induction false} NoneStands(threads: seq<Thread>, p: Pc -> bool)
    requires !p(Between) && forall t | 0 <= t < |threads| :: Done(threads[t])
    ensures Count(threads, p) == 0
  {
    if threads != [] {
      NoneStands(threads[1..], p);
    }
  }

  /** With at least one reader, no schedule deadlocks or runs on: every schedule of steps that can be taken has at
      most as many steps as there is work, and one that cannot be extended has finished all calls, with every
      connection queued and every permit returned. */
  lemma EveryScheduleFinishes(size: nat, work: seq<seq<Unit>>, schedule: seq<nat>)
    requires size > 0 && Allowed(Next, Enabled, Init(size, work), schedule)
    ensures var s := Run(Next, Init(size, work), schedule);
            && |schedule| <= StepsLeft(Starting(work))
            && ((forall t: nat :: !Enabled(s, t)) ==>
                  && (forall t | 0 <= t < |s.threads| :: Done(s.threads[t]))
                  && |s.available| == s.permits == size && !s.mutex && s.writerPermits == 1)
  {
    InitInvariant(size, work);
    RunTakesItsLength(Init(size, work), schedule);
    var s := Run(Next, Init(size, work), schedule);
    if forall t: nat :: !Enabled(s, t) {
      forall t | 0 <= t < |s.threads| ensures Done(s.threads[t]) {
        if !Done(s.threads[t]) {
          var mover := SomeoneMoves(s, t);
        }
      }
      NoneStands(s.threads, NotPopped);
      NoneStands(s.threads, NotReleased);
      NoneStands(s.threads, HasConnection);
      NoneStands(s.threads, InMutex);
      NoneStands(s.threads, HasWriter);
    }
  }

  // ------------------------------------------------------------ the objects

  /** The reader part of the database object. The waits are preconditions: the permit taken and, by
      `PopFindsConnection`, a connection queued. */
  class ReaderPool {
    var permits: nat
    var available: seq<nat>

    constructor (size: nat)
      ensures permits == size && available == Numbered(size)
    {
      permits := size;
      available := [];
      new;
      for i := 0 to size
        invariant permits == size && available == Numbered(i)
      {
        available := available + [i];
      }
    }

    method CreateReadUnitOfWork() returns (unit: ReadUnitOfWork)
      requires permits > 0 && available != []
      modifies this
      ensures fresh(unit) && unit.owner == this && unit.reader == old(available[0])
      ensures permits == old(permits) - 1 && available == old(available)[1..]
    {
      permits := permits - 1;
      var reader := available[0];
      available := available[1..];
      unit := new ReadUnitOfWork(this, reader);
    }

    method ReleaseReader(reader: nat)
      modifies this
      ensures permits == old(permits) + 1 && available == old(available) + [reader]
    {
      available := available + [reader];
      permits := permits + 1;
    }
  }

  class ReadUnitOfWork {
    const reader: nat
    var owner: ReaderPool?

    constructor (owner: ReaderPool, reader: nat)
      ensures this.owner == owner && this.reader == reader
    {
      this.owner, this.reader := owner, reader;
    }

    /** Closing gives the connection back once; the destructor closes again without effect. */
    method Close()
      modifies this, owner
      ensures owner == null
      ensures old(owner) != null ==> old(owner).permits == old(owner.permits) + 1
                                     && old(owner).available == old(owner.available) + [reader]
    {
      if owner == null {
        return;
      }
      owner.ReleaseReader(reader);
      owner := null;
    }
  }
}
