/** For every bound N, a run in which one write is overtaken by N + 1 commits and loses the current version. */
module FileVersionBound {
  import opened Outcomes
  import opened FileTables
  import opened Runs
  import opened FileVersionProtocol

  /** File 1 named "f", bound `n`; caller 0 waits to write and was overtaken `k` times; ids from `m` on are
      unissued. */
  ghost predicate Primed(s: State, n: UInt32, k: nat, m: int) {
    && Invariant(s, 1) && s.db.files.Keys == {1} && s.db.files[1].name == "f" && s.db.files[1].maxVersionCount == n
    && 0 in s.calls && s.calls[0].phase.Ready? && s.calls[0].overtaken == k && s.calls[0].FileId() == 1
    && s.calls[0].File().name == "f"
    && (forall id | id in s.issued :: id < m)
  }

  /** Caller 1 has read the file row and has not been overtaken. */
  ghost predicate Reading(s: State) {
    1 in s.calls && s.calls[1].phase.FileRead? && s.calls[1].overtaken == 0 && s.calls[1].FileId() == 1
    && s.calls[1].File().name == "f"
  }

  ghost predicate Writing(s: State) {
    1 in s.calls && s.calls[1].phase.Ready? && s.calls[1].overtaken == 0 && s.calls[1].FileId() == 1
    && s.calls[1].File().name == "f"
  }

  lemma ReadStep(s: State, n: UInt32, k: nat, m: int)
    requires Primed(s, n, k, m) && s.calls.Keys == {0}
    ensures var s' := Next(s, ReadFile(1, 1)); Primed(s', n, k, m) && s'.calls.Keys == {0, 1} && Reading(s')
  {
    StepKeepsInvariant(s, ReadFile(1, 1), 1);
  }

  lemma ReadVersionStep(s: State, n: UInt32, k: nat, m: int)
    requires 0 < n < 0x8000_0000 && Primed(s, n, k, m) && s.calls.Keys == {0, 1} && Reading(s)
    ensures var s' := Next(s, ReadVersion(1, m, "f", 0, 0));
            Primed(s', n, k, m + 1) && s'.calls.Keys == {0, 1} && Writing(s')
  {
    StepKeepsInvariant(s, ReadVersion(1, m, "f", 0, 0), 1);
    assert Tracks(s.db, s.calls[1]);
    SecondReadSucceedsIff(s, 1);
  }

  lemma WriteSucceeds(s: State, n: UInt32, k: nat, m: int)
    requires 0 < n < 0x8000_0000 && Primed(s, n, k, m) && Writing(s)
    ensures var t, r := s.calls[1].phase.ticket, CommitVersion(s.db, s.calls[1].phase.ticket);
            r.Ok? && r.value.files == s.db.files[1 := t.file.(currentVersionId := t.newId)]
  {
    assert Tracks(s.db, s.calls[1]);
    UnovertakenCallIsAtomic(s, 1);
  }

  lemma WriteStep(s: State, n: UInt32, k: nat, m: int)
    requires 0 < n < 0x8000_0000 && Primed(s, n, k, m) && s.calls.Keys == {0, 1} && Writing(s)
    ensures var s' := Next(s, Write(1)); Primed(s', n, k + 1, m) && s'.calls.Keys == {0}
  {
    StepKeepsInvariant(s, Write(1), 1);
    assert Tracks(s.db, s.calls[1]);
    WriteSucceeds(s, n, k, m);
  }

  /** Caller 1 creates one version, undisturbed. */
  function Uncontended(m: int): seq<Step> {
    [ReadFile(1, 1), ReadVersion(1, m, "f", 0, 0), Write(1)]
  }

  lemma UncontendedOvertakes(s: State, n: UInt32, k: nat, m: int)
    requires 0 < n < 0x8000_0000 && Primed(s, n, k, m) && s.calls.Keys == {0}
    ensures var s' := Next(Next(Next(s, ReadFile(1, 1)), ReadVersion(1, m, "f", 0, 0)), Write(1));
            Primed(s', n, k + 1, m + 1) && s'.calls.Keys == {0}
  {
    ReadStep(s, n, k, m);
    ReadVersionStep(Next(s, ReadFile(1, 1)), n, k, m);
    WriteStep(Next(Next(s, ReadFile(1, 1)), ReadVersion(1, m, "f", 0, 0)), n, k, m + 1);
  }

  lemma RoundOvertakes(s: State, n: UInt32, k: nat, m: int)
    requires 0 < n < 0x8000_0000 && Primed(s, n, k, m) && s.calls.Keys == {0}
    ensures Primed(Run(Next, s, Uncontended(m)), n, k + 1, m + 1) && Run(Next, s, Uncontended(m)).calls.Keys == {0}
  {
    UncontendedOvertakes(s, n, k, m);
    RunOfThree(Next, s, ReadFile(1, 1), ReadVersion(1, m, "f", 0, 0), Write(1));
  }

  /** `k` undisturbed creations by caller 1. */
  function ContendedRun(k: nat): seq<Step> {
    Blocks(Uncontended, 4, k)
  }

  ghost predicate PrimedAt(s: State, n: UInt32, m: int) {
    m >= 4 && Primed(s, n, m - 4, m) && s.calls.Keys == {0}
  }

  lemma ContendedRunOvertakes(s: State, n: UInt32, k: nat)
    requires 0 < n < 0x8000_0000 && Primed(s, n, 0, 4) && s.calls.Keys == {0}
    ensures PrimedAt(Run(Next, s, ContendedRun(k)), n, k + 4)
  {
    forall s, m | PrimedAt(s, n, m) ensures PrimedAt(Run(Next, s, Uncontended(m)), n, m + 1) {
      RoundOvertakes(s, n, m - 4, m);
    }
    BlocksKeep(Next, Uncontended, (s, m) => PrimedAt(s, n, m), s, 4, k);
  }

  function Start(): State {
    Init(map[7 := "u"], map["u" := 8])
  }

  function Opening(n: UInt32): seq<Step> {
    [Create(1, 2, "f", 7, 0, n, 0), ReadFile(0, 1), ReadVersion(0, 3, "f", 0, 0)]
  }

  /** File 1 exists, named "f", bound `n`; ids from `m` on are unissued. */
  ghost predicate OneFile(s: State, n: UInt32, m: int) {
    && Invariant(s, 1) && s.db.files.Keys == {1} && s.db.files[1].name == "f" && s.db.files[1].maxVersionCount == n
    && (forall id | id in s.issued :: id < m)
  }

  lemma CreateStep(n: UInt32)
    requires n > 0
    ensures var s := Next(Start(), Create(1, 2, "f", 7, 0, n, 0)); OneFile(s, n, 3) && s.calls.Keys == {}
  {
    CreateSucceeds(Start().db, n);
    CreateStepInvariant(n);
  }

  lemma CreateStepInvariant(n: UInt32)
    ensures Invariant(Next(Start(), Create(1, 2, "f", 7, 0, n, 0)), 1)
  {
    InitKeepsInvariant(map[7 := "u"], map["u" := 8], 1);
    StepKeepsInvariant(Start(), Create(1, 2, "f", 7, 0, n, 0), 1);
  }

  lemma CreateSucceeds(db: Db, n: UInt32)
    requires db.files == map[] && db.versions == map[] && db.users == map[7 := "u"] && db.groupIds == map["u" := 8]
    ensures CreateFile(db, 1, 2, "f", 7, 0, n, 0).Ok?
    ensures CreateFile(db, 1, 2, "f", 7, 0, n, 0).value.files == map[1 := File("f", 2, n, 0, 7)]
  {
  }

  lemma OpeningFirstRead(s: State, n: UInt32)
    requires OneFile(s, n, 3) && s.calls.Keys == {}
    ensures var s' := Next(s, ReadFile(0, 1));
            && OneFile(s', n, 3) && s'.calls.Keys == {0} && s'.calls[0].phase.FileRead? && s'.calls[0].overtaken == 0
            && s'.calls[0].FileId() == 1 && s'.calls[0].File().name == "f"
  {
    StepKeepsInvariant(s, ReadFile(0, 1), 1);
  }

  lemma OpeningSecondRead(s: State, n: UInt32)
    requires 0 < n < 0x8000_0000 && OneFile(s, n, 3) && s.calls.Keys == {0}
    requires s.calls[0].phase.FileRead? && s.calls[0].overtaken == 0
    requires s.calls[0].FileId() == 1 && s.calls[0].File().name == "f"
    ensures var s' := Next(s, ReadVersion(0, 3, "f", 0, 0)); Primed(s', n, 0, 4) && s'.calls.Keys == {0}
  {
    StepKeepsInvariant(s, ReadVersion(0, 3, "f", 0, 0), 1);
    assert Tracks(s.db, s.calls[0]);
    SecondReadSucceedsIff(s, 0);
  }

  lemma OpeningPrimes(n: UInt32)
    requires 0 < n < 0x8000_0000
    ensures var s := Run(Next, Start(), Opening(n)); Primed(s, n, 0, 4) && s.calls.Keys == {0}
  {
    CreateStep(n);
    OpeningFirstRead(Next(Start(), Create(1, 2, "f", 7, 0, n, 0)), n);
    OpeningSecondRead(Next(Next(Start(), Create(1, 2, "f", 7, 0, n, 0)), ReadFile(0, 1)), n);
    RunOfThree(Next, Start(), Create(1, 2, "f", 7, 0, n, 0), ReadFile(0, 1), ReadVersion(0, 3, "f", 0, 0));
  }

  lemma LateWriteDangles(s: State, n: UInt32, m: int)
    requires 0 < n < 0x8000_0000 && Primed(s, n, n + 1, m)
    ensures 1 in Next(s, Write(0)).db.files && !HasCurrent(Next(s, Write(0)).db, 1)
  {
    ReadyIsBehind(s, 0);
    FarOvertakenDangles(s.db, s.calls[0].phase.ticket, n + 1);
  }

  /** For every bound N there is a run in which one write is overtaken by N + 1 commits, and after it the file's
      current version is gone. */
  lemma OneMoreBreaks(n: UInt32)
    requires 0 < n < 0x8000_0000
    ensures var s := Run(Next, Start(), Opening(n) + ContendedRun(n + 1));
            && 0 in s.calls && s.calls[0].overtaken == n + 1
            && 1 in Next(s, Write(0)).db.files && !HasCurrent(Next(s, Write(0)).db, 1)
  {
    OpeningPrimes(n);
    RunConcat(Next, Start(), Opening(n), ContendedRun(n + 1));
    ContendedRunOvertakes(Run(Next, Start(), Opening(n)), n, n + 1);
    LateWriteDangles(Run(Next, Start(), Opening(n) + ContendedRun(n + 1)), n, n + 5);
  }
}
