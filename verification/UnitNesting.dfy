/** Calls that may hold several units of work at once: which discipline keeps them from blocking each other, and what
    happens without it. Permits only; how a reader permit turns into a connection is `ConnectionPool`. */
module UnitNesting {
  import ConnectionPool
  import opened Runs

  datatype Op = TakeReader | GiveReader | TakeWriter | GiveWriter

  /** The units a thread holds, and what it is still to do. */
  datatype Thread = Thread(readers: nat, writers: nat, ops: seq<Op>)

  datatype State = State(readerPermits: nat, writerPermits: nat, threads: seq<Thread>)

  predicate Enabled(s: State, t: nat) {
    && t < |s.threads| && s.threads[t].ops != []
    && match s.threads[t].ops[0] {
         case TakeReader => s.readerPermits > 0
         case TakeWriter => s.writerPermits > 0
         case GiveReader => s.threads[t].readers > 0
         case GiveWriter => s.threads[t].writers > 0
       }
  }

  /** The next operation of thread `t`; nothing while it has to wait. */
  function Next(s: State, t: nat): State {
    if !Enabled(s, t) then s
    else
      var Thread(r, w, ops) := s.threads[t];
      match ops[0]
      case TakeReader => s.(readerPermits := s.readerPermits - 1, threads := s.threads[t := Thread(r + 1, w, ops[1..])])
      case GiveReader => s.(readerPermits := s.readerPermits + 1, threads := s.threads[t := Thread(r - 1, w, ops[1..])])
      case TakeWriter => s.(writerPermits := s.writerPermits - 1, threads := s.threads[t := Thread(r, w + 1, ops[1..])])
      case GiveWriter => s.(writerPermits := s.writerPermits + 1, threads := s.threads[t := Thread(r, w - 1, ops[1..])])
  }

  function Init(size: nat, work: seq<seq<Op>>): (s: State)
    ensures s.readerPermits == size && s.writerPermits == 1 && |s.threads| == |work|
    ensures forall t | 0 <= t < |work| :: s.threads[t] == Thread(0, 0, work[t])
  {
    State(size, 1, seq(|work|, t requires 0 <= t < |work| => Thread(0, 0, work[t])))
  }

  /** Nothing is awaited while a reader is held, nor the writer while the writer is held; everything is given back. A
      reader may be taken while the writer is held. */
  predicate Disciplined(x: Thread)
    decreases |x.ops|
  {
    if x.ops == [] then x.readers == 0 && x.writers == 0
    else
      var rest := x.ops[1..];
      match x.ops[0]
      case TakeReader => x.readers == 0 && Disciplined(Thread(1, x.writers, rest))
      case TakeWriter => x.readers == 0 && x.writers == 0 && Disciplined(Thread(0, 1, rest))
      case GiveReader => x.readers > 0 && Disciplined(Thread(x.readers - 1, x.writers, rest))
      case GiveWriter => x.writers > 0 && Disciplined(Thread(x.readers, x.writers - 1, rest))
  }

  // ------------------------------------------------------------ accounts

  function Total(threads: seq<Thread>, weight: Thread -> nat): nat {
    if threads == [] then 0 else weight(threads[0]) + Total(threads[1..], weight)
  }

  function Readers(x: Thread): nat {
    x.readers
  }

  function Writers(x: Thread): nat {
    x.writers
  }

  function OpsLeft(x: Thread): nat {
    |x.ops|
  }

  ghost predicate Invariant(s: State, size: nat) {
    && s.readerPermits + Total(s.threads, Readers) == size
    && s.writerPermits + Total(s.threads, Writers) == 1
    && forall t | 0 <= t < |s.threads| :: Disciplined(s.threads[t])
  }

  lemma {:induction false} TotalUpdate(threads: seq<Thread>, t: nat, x: Thread, weight: Thread -> nat)
    requires t < |threads|
    ensures Total(threads[t := x], weight) + weight(threads[t]) == Total(threads, weight) + weight(x)
  {
    if t == 0 {
      assert threads[t := x][1..] == threads[1..];
    } else {
      assert threads[t := x][1..] == threads[1..][t - 1 := x];
      TotalUpdate(threads[1..], t - 1, x, weight);
    }
  }

  lemma {:induction false} TotalFinds(threads: seq<Thread>, weight: Thread -> nat) returns (t: nat)
    requires Total(threads, weight) > 0
    ensures t < |threads| && weight(threads[t]) > 0
  {
    if weight(threads[0]) > 0 {
      t := 0;
    } else {
      var u := TotalFinds(threads[1..], weight);
      t := u + 1;
    }
  }

  lemma {:induction false} TotalNone(threads: seq<Thread>, weight: Thread -> nat)
    requires forall t | 0 <= t < |threads| :: weight(threads[t]) == 0
    ensures Total(threads, weight) == 0
  {
    if threads != [] {
      TotalNone(threads[1..], weight);
    }
  }

  lemma StepKeepsInvariant(s: State, t: nat, size: nat)
    requires Invariant(s, size) && Enabled(s, t)
    ensures Invariant(Next(s, t), size)
    ensures Total(Next(s, t).threads, OpsLeft) + 1 == Total(s.threads, OpsLeft)
  {
    var x := Next(s, t).threads[t];
    assert Next(s, t).threads == s.threads[t := x];
    assert Disciplined(s.threads[t]);
    TotalUpdate(s.threads, t, x, Readers);
    TotalUpdate(s.threads, t, x, Writers);
    TotalUpdate(s.threads, t, x, OpsLeft);
  }

  // ------------------------------------------------------------ no deadlock under the discipline

  /** With at least one reader, as long as some thread has something to do, some thread can move. */
  lemma SomeoneMoves(s: State, t: nat, size: nat) returns (mover: nat)
    requires Invariant(s, size) && size > 0 && t < |s.threads| && s.threads[t].ops != []
    ensures Enabled(s, mover)
  {
    if s.readerPermits == 0 {
      mover := TotalFinds(s.threads, Readers);
      assert Disciplined(s.threads[mover]);
    } else if s.writerPermits == 0 {
      mover := TotalFinds(s.threads, Writers);
      assert Disciplined(s.threads[mover]);
    } else {
      mover := t;
      assert Disciplined(s.threads[t]);
    }
  }

  lemma {:induction false} RunTakesItsLength(s: State, schedule: seq<nat>, size: nat)
    requires Invariant(s, size) && Allowed(Next, Enabled, s, schedule)
    ensures Invariant(Run(Next, s, schedule), size)
    ensures Total(Run(Next, s, schedule).threads, OpsLeft) + |schedule| == Total(s.threads, OpsLeft)
    decreases |schedule|
  {
    if schedule != [] {
      StepKeepsInvariant(s, schedule[0], size);
      RunTakesItsLength(Next(s, schedule[0]), schedule[1..], size);
    }
  }

  lemma InitInvariant(size: nat, work: seq<seq<Op>>)
    requires forall i | 0 <= i < |work| :: Disciplined(Thread(0, 0, work[i]))
    ensures Invariant(Init(size, work), size)
  {
    TotalNone(Init(size, work).threads, Readers);
    TotalNone(Init(size, work).threads, Writers);
  }

  /** With at least one reader and disciplined calls, nested or not: every schedule has at most as many steps as there are
      operations, and one that cannot be extended has finished all calls with every permit returned. */
  lemma DisciplineFinishes(size: nat, work: seq<seq<Op>>, schedule: seq<nat>)
    requires size > 0 && forall i | 0 <= i < |work| :: Disciplined(Thread(0, 0, work[i]))
    requires Allowed(Next, Enabled, Init(size, work), schedule)
    ensures var s := Run(Next, Init(size, work), schedule);
            && |schedule| <= Total(Init(size, work).threads, OpsLeft)
            && ((forall t: nat :: !Enabled(s, t)) ==>
                  && (forall t | 0 <= t < |s.threads| :: s.threads[t] == Thread(0, 0, []))
                  && s.readerPermits == size && s.writerPermits == 1)
  {
    InitInvariant(size, work);
    RunTakesItsLength(Init(size, work), schedule, size);
    var s := Run(Next, Init(size, work), schedule);
    if forall t: nat :: !Enabled(s, t) {
      forall t | 0 <= t < |s.threads| ensures s.threads[t] == Thread(0, 0, []) {
        if s.threads[t].ops != [] {
          var mover := SomeoneMoves(s, t, size);
        }
        assert Disciplined(s.threads[t]);
      }
      TotalNone(s.threads, Readers);
      TotalNone(s.threads, Writers);
    }
  }

  // ------------------------------------------------------------ the service calls

  /** A call that gives each unit back before it takes the next. */
  function FlatOps(units: seq<ConnectionPool.Unit>): seq<Op> {
    if units == [] then []
    else (if units[0].Read? then [TakeReader, GiveReader] else [TakeWriter, GiveWriter]) + FlatOps(units[1..])
  }

  /** The service calls, which never hold two units, are disciplined. */
  lemma {:induction false} FlatIsDisciplined(units: seq<ConnectionPool.Unit>)
    ensures Disciplined(Thread(0, 0, FlatOps(units)))
  {
    if units != [] {
      var rest := FlatOps(units[1..]);
      FlatIsDisciplined(units[1..]);
      var ops := FlatOps(units);
      assert ops[1..][1..] == rest;
    }
  }

  /** Each unit takes and gives back a permit of its own kind. */
  lemma {:induction false} FlatTakesUnits(units: seq<ConnectionPool.Unit>, i: nat)
    requires i < |units|
    ensures |FlatOps(units)| == 2 * |units|
    ensures FlatOps(units)[2 * i] == (if units[i].Write? then TakeWriter else TakeReader)
    ensures FlatOps(units)[2 * i + 1] == (if units[i].Write? then GiveWriter else GiveReader)
  {
    if i > 0 {
      FlatTakesUnits(units[1..], i - 1);
    } else if |units| > 1 {
      FlatTakesUnits(units[1..], 0);
    }
  }

  // ------------------------------------------------------------ without the discipline

  /** Takes a reader while it holds the writer: disciplined. */
  const WRITER_FIRST: seq<Op> := [TakeWriter, TakeReader, GiveReader, GiveWriter]

  /** Waits for the writer while it holds a reader: not disciplined. */
  const READER_FIRST: seq<Op> := [TakeReader, TakeWriter, GiveWriter, GiveReader]

  function Clashing(size: nat): seq<seq<Op>> {
    [WRITER_FIRST] + seq(size, _ => READER_FIRST)
  }

  /** After thread 0 took the writer and threads 1 to `k` a reader each. */
  function Stage(size: nat, k: nat): (s: State)
    requires k <= size
    ensures |s.threads| == size + 1
  {
    State(size - k, 0,
          seq(size + 1, i => if i == 0 then Thread(0, 1, WRITER_FIRST[1..])
                             else if i <= k then Thread(1, 0, READER_FIRST[1..]) else Thread(0, 0, READER_FIRST)))
  }

  lemma {:induction false} ReachesStage(size: nat, k: nat)
    requires k <= size
    ensures Run(Next, Init(size, Clashing(size)), ConnectionPool.Numbered(k + 1)) == Stage(size, k)
  {
    var s := Init(size, Clashing(size));
    var schedule := ConnectionPool.Numbered(k + 1);
    if k == 0 {
      assert schedule == [0];
      assert Run(Next, s, [0]) == Next(s, 0);
      assert Next(s, 0).threads == Stage(size, 0).threads;
    } else {
      ReachesStage(size, k - 1);
      assert schedule == ConnectionPool.Numbered(k) + [k];
      RunConcat(Next, s, ConnectionPool.Numbered(k), [k]);
      var before := Stage(size, k - 1);
      assert Run(Next, before, [k]) == Next(before, k);
      assert Next(before, k).threads == Stage(size, k).threads;
    }
  }

  /** However many readers there are, one call that takes a reader inside the writer and as many calls that wait for the
      writer while they hold a reader can all wait for each other forever. */
  lemma NestedCallsBlock(size: nat)
    requires size > 0
    ensures !Disciplined(Thread(0, 0, READER_FIRST)) && Disciplined(Thread(0, 0, WRITER_FIRST))
    ensures var s := Run(Next, Init(size, Clashing(size)), ConnectionPool.Numbered(size + 1));
            && (forall t: nat :: !Enabled(s, t)) && (forall t | 0 <= t < |s.threads| :: s.threads[t].ops != [])
  {
    ReachesStage(size, size);
    assert WRITER_FIRST[1..] == [TakeReader, GiveReader, GiveWriter];
    assert READER_FIRST[1..] == [TakeWriter, GiveWriter, GiveReader];
    assert WRITER_FIRST[1..][1..] == [GiveReader, GiveWriter] && [GiveReader, GiveWriter][1..] == [GiveWriter];
    assert Disciplined(Thread(0, 1, [GiveWriter]));
    assert Disciplined(Thread(1, 1, [GiveReader, GiveWriter]));
    assert Disciplined(Thread(0, 1, [TakeReader, GiveReader, GiveWriter]));
    assert !Disciplined(Thread(1, 0, [TakeWriter, GiveWriter, GiveReader]));
  }
}
