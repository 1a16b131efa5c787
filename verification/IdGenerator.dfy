/** The lock-free id generator: threads draw ids from one atomic 64-bit value by compare-and-exchange. */
module IdGenerator {
  import opened Outcomes
  import opened Runs

  const MAX_INT64: int := 0x7FFF_FFFF_FFFF_FFFF

  newtype int64 = x: int | -MAX_INT64 - 1 <= x <= MAX_INT64

  /** `last + 1` in 64 bits. The language does not say what a signed sum above the top is: it may be any value. */
  function Successor(last: int64, overflow: int64): int64 {
    if last as int == MAX_INT64 then overflow else last + 1
  }

  function Candidate(time: int64, last: int64, overflow: int64): int64 {
    if time > last then time else Successor(last, overflow)
  }

  /** `began`: how many ids had been drawn when the call began; `last`: the thread's own copy of the value. */
  datatype Thread = Idle | Started(time: int64, began: nat) | Trying(time: int64, last: int64, began: nat)

  /** An id drawn, and how many had been drawn when the call that drew it began. */
  datatype Drawn = Drawn(id: int64, began: nat)

  datatype Generator = Generator(value: int64, threads: map<nat, Thread>, drawn: seq<Drawn>)

  /** The steps of a thread. A load may return any value, however old; a failed exchange, spurious or not, may too, and
      is followed by a new clock reading. Clock readings are arbitrary, and so is what a sum above the top gives. */
  datatype Step =
    | Begin(thread: nat, time: int64)
    | Load(thread: nat, seen: int64)
    | Fail(thread: nat, seen: int64, time: int64)
    | Exchange(thread: nat, overflow: int64)

  function At(g: Generator, thread: nat): Thread {
    if thread in g.threads then g.threads[thread] else Idle
  }

  function Next(g: Generator, step: Step): Generator {
    var x := At(g, step.thread);
    match step
    case Begin(t, time) => if x.Idle? then g.(threads := g.threads[t := Started(time, |g.drawn|)]) else g
    case Load(t, seen) => if x.Started? then g.(threads := g.threads[t := Trying(x.time, seen, x.began)]) else g
    case Fail(t, seen, time) => if x.Trying? then g.(threads := g.threads[t := Trying(time, seen, x.began)]) else g
    case Exchange(t, overflow) =>
      if x.Trying? && g.value == x.last then
        var id := Candidate(x.time, x.last, overflow);
        Generator(id, g.threads[t := Idle], g.drawn + [Drawn(id, x.began)])
      else g
  }

  function Init(start: int64): Generator {
    Generator(start, map[], [])
  }

  /** The step is an exchange that succeeds. */
  predicate Draws(g: Generator, step: Step) {
    step.Exchange? && At(g, step.thread).Trying? && g.value == At(g, step.thread).last
  }

  predicate BelowTop(g: Generator, step: Step) {
    Draws(g, step) ==> (g.value as int) < MAX_INT64
  }

  /** The value before the `i`-th id was drawn, if every id drawn became the value. */
  function Before(start: int64, drawn: seq<Drawn>, i: nat): int64
    requires i <= |drawn|
  {
    if i == 0 then start else drawn[i - 1].id
  }

  ghost predicate Increasing(start: int64, drawn: seq<Drawn>) {
    forall i: nat | i < |drawn| :: drawn[i].id > Before(start, drawn, i)
  }

  lemma StepIncreasesIff(start: int64, g: Generator, step: Step)
    requires g.value == Before(start, g.drawn, |g.drawn|)
    ensures Next(g, step).value == Before(start, Next(g, step).drawn, |Next(g, step).drawn|)
    ensures Increasing(start, Next(g, step).drawn) <==> Increasing(start, g.drawn) && BelowTop(g, step)
  {
    var drawn, drawn' := g.drawn, Next(g, step).drawn;
    if Draws(g, step) {
      assert forall i: nat | i <= |drawn| :: Before(start, drawn', i) == Before(start, drawn, i);
      assert Increasing(start, drawn') ==> forall i: nat | i < |drawn| :: drawn[i] == drawn'[i];
      assert Increasing(start, drawn') ==> drawn'[|drawn|].id > Before(start, drawn', |drawn|);
    }
  }

  /** For any interleaving, clock readings, stale loads and spurious failures, every id is greater than the one drawn
      before it exactly if no id is drawn while the value is at its top. */
  lemma {:induction false} IdsIncreaseIff(start: int64, g: Generator, steps: seq<Step>)
    requires g.value == Before(start, g.drawn, |g.drawn|)
    ensures Increasing(start, Run(Next, g, steps).drawn) <==> Increasing(start, g.drawn) && Allowed(Next, BelowTop, g, steps)
    decreases |steps|
  {
    if steps != [] {
      StepIncreasesIff(start, g, steps[0]);
      IdsIncreaseIff(start, Next(g, steps[0]), steps[1..]);
    }
  }

  lemma {:induction false} IncreasingPairs(start: int64, drawn: seq<Drawn>, i: nat, j: nat)
    requires Increasing(start, drawn) && i < j < |drawn|
    ensures drawn[i].id < drawn[j].id
    decreases j
  {
    assert drawn[j].id > Before(start, drawn, j);
    if i < j - 1 {
      IncreasingPairs(start, drawn, i, j - 1);
    }
  }

  /** No call has begun after more ids than there are. */
  ghost predicate BeganEarlier(g: Generator) {
    && (forall i: nat | i < |g.drawn| :: g.drawn[i].began <= i)
    && (forall t | t in g.threads && !g.threads[t].Idle? :: g.threads[t].began <= |g.drawn|)
  }

  /** Every id is distinct from all others and greater than all ids drawn before its call began, as long as none is
      drawn while the value is at its top. */
  lemma IdsDistinctAndOrdered(start: int64, steps: seq<Step>)
    requires Allowed(Next, BelowTop, Init(start), steps)
    ensures var drawn := Run(Next, Init(start), steps).drawn;
            && (forall i, j | 0 <= i < j < |drawn| :: drawn[i].id != drawn[j].id)
            && (forall i, j | 0 <= i < |drawn| && 0 <= j < drawn[i].began :: j < |drawn| && drawn[j].id < drawn[i].id)
  {
    var e := Run(Next, Init(start), steps);
    IdsIncreaseIff(start, Init(start), steps);
    RunKeeps(Next, BelowTop, g => BeganEarlier(g), Init(start), steps);
    forall i: nat, j: nat | i < j < |e.drawn| ensures e.drawn[i].id < e.drawn[j].id {
      IncreasingPairs(start, e.drawn, i, j);
    }
  }

  /** Every id drawn after some moment of a run that stays below the top is greater than every id drawn before it; so an id
      is greater than all ids drawn before its own call began. */
  lemma LaterIdsGreater(start: int64, before: seq<Step>, after: seq<Step>)
    requires Allowed(Next, BelowTop, Init(start), before + after)
    ensures var g, e := Run(Next, Init(start), before), Run(Next, Init(start), before + after);
            && g.drawn <= e.drawn
            && forall i, j | 0 <= i < |g.drawn| <= j < |e.drawn| :: g.drawn[i].id == e.drawn[i].id < e.drawn[j].id
  {
    var g, e := Run(Next, Init(start), before), Run(Next, Init(start), before + after);
    IdsIncreaseIff(start, Init(start), before + after);
    RunConcat(Next, Init(start), before, after);
    AllAllowed(Next, (x: Generator, step: Step) => true, g, after);
    RunKeeps(Next, (x: Generator, step: Step) => true, (x: Generator) => g.drawn <= x.drawn, g, after);
    forall i: nat, j: nat | i < j < |e.drawn| ensures e.drawn[i].id < e.drawn[j].id {
      IncreasingPairs(start, e.drawn, i, j);
    }
  }

  // ------------------------------------------------------------ which id is drawn

  /** The least value that is greater than `before` and not less than the clock reading. */
  predicate LeastAbove(before: int64, time: int64, id: int64) {
    id > before && id >= time && (id == time || id as int == before as int + 1)
  }

  /** Below the top an exchange draws the least value above the old one and not below the call's last clock reading. */
  lemma DrawsLeast(g: Generator, step: Step)
    requires Draws(g, step) && BelowTop(g, step)
    ensures var g', time := Next(g, step), At(g, step.thread).time;
            && |g'.drawn| == |g.drawn| + 1 && g'.drawn[..|g.drawn|] == g.drawn && g'.value == g'.drawn[|g.drawn|].id
            && LeastAbove(g.value, time, g'.value)
  {
  }

  function StateBefore(start: int64, steps: seq<Step>, i: nat): Generator
    requires i <= |steps|
  {
    StateAt(Next, Init(start), steps, i)
  }

  /** Step `i` begins a call of the thread. */
  predicate Begins(start: int64, steps: seq<Step>, i: nat, thread: nat) {
    i < |steps| && steps[i].Begin? && steps[i].thread == thread && At(StateBefore(start, steps, i), thread).Idle?
  }

  /** Step `i` is a failed exchange of the thread, after which it reads the clock again. */
  predicate ReadsAgain(start: int64, steps: seq<Step>, i: nat, thread: nat) {
    i < |steps| && steps[i].Fail? && steps[i].thread == thread && At(StateBefore(start, steps, i), thread).Trying?
  }

  /** Step `b` began the thread's present call, and step `i` is the last that read the clock for it. */
  ghost predicate CallSince(start: int64, steps: seq<Step>, b: nat, i: nat, thread: nat) {
    && Begins(start, steps, b, thread) && (i == b || (b < i && ReadsAgain(start, steps, i, thread)))
    && (forall k: nat | k > b :: !Begins(start, steps, k, thread))
    && (forall k: nat | k > i :: !ReadsAgain(start, steps, k, thread))
  }

  /** What a thread under way carries: how many ids had been drawn when its call began, and its call's last reading. */
  ghost predicate Carries(start: int64, steps: seq<Step>, x: Thread, thread: nat)
    requires !x.Idle?
  {
    exists b: nat, i: nat :: CallSince(start, steps, b, i, thread)
                             && |StateBefore(start, steps, b).drawn| == x.began && steps[i].time == x.time
  }

  /** Step `j` drew the `n`-th id: the least above the one before it and not below the last clock reading of the call, and
      it is on record how many had been drawn when that call began. */
  ghost predicate DrawnAt(start: int64, steps: seq<Step>, j: nat, drawn: seq<Drawn>, n: nat)
    requires n < |drawn|
  {
    && j < |steps| && Draws(StateBefore(start, steps, j), steps[j]) && |StateBefore(start, steps, j).drawn| == n
    && var x := At(StateBefore(start, steps, j), steps[j].thread);
    && Carries(start, steps[..j], x, steps[j].thread)
    && drawn[n].began == x.began && LeastAbove(Before(start, drawn, n), x.time, drawn[n].id)
  }

  ghost predicate DrawnLeast(start: int64, steps: seq<Step>, drawn: seq<Drawn>, n: nat)
    requires n < |drawn|
  {
    exists j: nat :: DrawnAt(start, steps, j, drawn, n)
  }

  ghost predicate AllCarry(start: int64, steps: seq<Step>, g: Generator) {
    forall t | t in g.threads && !g.threads[t].Idle? :: Carries(start, steps, g.threads[t], t)
  }

  lemma CallGoesOn(start: int64, steps: seq<Step>, step: Step, b: nat, i: nat, thread: nat)
    requires CallSince(start, steps, b, i, thread)
    requires !Begins(start, steps + [step], |steps|, thread)
    ensures ReadsAgain(start, steps + [step], |steps|, thread) ==> CallSince(start, steps + [step], b, |steps|, thread)
    ensures !ReadsAgain(start, steps + [step], |steps|, thread) ==> CallSince(start, steps + [step], b, i, thread)
    ensures StateBefore(start, steps + [step], b) == StateBefore(start, steps, b)
  {
    var all := steps + [step];
    RunOneMore(Next, Init(start), steps, step);
    forall k: nat | k < |steps|
      ensures Begins(start, all, k, thread) <==> Begins(start, steps, k, thread)
      ensures ReadsAgain(start, all, k, thread) <==> ReadsAgain(start, steps, k, thread)
    {
      assert StateBefore(start, all, k) == StateBefore(start, steps, k);
    }
  }

  lemma CallBegins(start: int64, steps: seq<Step>, step: Step, thread: nat)
    requires Begins(start, steps + [step], |steps|, thread)
    ensures CallSince(start, steps + [step], |steps|, |steps|, thread)
  {
  }

  lemma LastState(start: int64, steps: seq<Step>, step: Step)
    ensures StateBefore(start, steps + [step], |steps|) == Run(Next, Init(start), steps)
  {
    RunOneMore(Next, Init(start), steps, step);
    assert steps[..|steps|] == steps;
  }

  lemma StepCarries(start: int64, steps: seq<Step>, step: Step)
    requires AllCarry(start, steps, Run(Next, Init(start), steps))
    ensures AllCarry(start, steps + [step], Next(Run(Next, Init(start), steps), step))
  {
    var g := Run(Next, Init(start), steps);
    var g', all, n := Next(g, step), steps + [step], |steps|;
    LastState(start, steps, step);
    forall t | t in g'.threads && !g'.threads[t].Idle? ensures Carries(start, all, g'.threads[t], t) {
      if Begins(start, all, n, t) {
        CallBegins(start, steps, step, t);
        assert all[n].time == g'.threads[t].time;
      } else {
        var x := g.threads[t];
        var b: nat, i: nat :| CallSince(start, steps, b, i, t)
                              && |StateBefore(start, steps, b).drawn| == x.began && steps[i].time == x.time;
        CallGoesOn(start, steps, step, b, i, t);
        assert all[i] == steps[i];
      }
    }
  }

  lemma DrawnStays(start: int64, steps: seq<Step>, step: Step, j: nat, drawn: seq<Drawn>, drawn': seq<Drawn>, n: nat)
    requires n < |drawn| && drawn <= drawn' && DrawnAt(start, steps, j, drawn, n)
    ensures DrawnAt(start, steps + [step], j, drawn', n)
  {
    RunOneMore(Next, Init(start), steps, step);
    assert (steps + [step])[..j] == steps[..j];
    assert Before(start, drawn', n) == Before(start, drawn, n);
  }

  lemma DrawnNow(start: int64, steps: seq<Step>, step: Step)
    requires var g := Run(Next, Init(start), steps);
             && g.value == Before(start, g.drawn, |g.drawn|) && AllCarry(start, steps, g) && Draws(g, step) && BelowTop(g, step)
    ensures var g, g' := Run(Next, Init(start), steps), Next(Run(Next, Init(start), steps), step);
            && |g'.drawn| == |g.drawn| + 1 && g'.value == g'.drawn[|g.drawn|].id
            && DrawnAt(start, steps + [step], |steps|, g'.drawn, |g.drawn|)
  {
    var g := Run(Next, Init(start), steps);
    DrawsLeast(g, step);
    LastState(start, steps, step);
    assert (steps + [step])[..|steps|] == steps;
    assert Carries(start, steps, At(g, step.thread), step.thread);
    assert Before(start, Next(g, step).drawn, |g.drawn|) == Before(start, g.drawn, |g.drawn|);
  }

  /** In every run that stays below the top each id is the least above the one before it and not below the last clock
      reading of the call that drew it. */
  lemma {:induction false} IdsFollowClock(start: int64, steps: seq<Step>)
    requires Allowed(Next, BelowTop, Init(start), steps)
    ensures var g := Run(Next, Init(start), steps);
            && g.value == Before(start, g.drawn, |g.drawn|) && AllCarry(start, steps, g)
            && forall n: nat | n < |g.drawn| :: DrawnLeast(start, steps, g.drawn, n)
    decreases |steps|
  {
    if steps != [] {
      var n := |steps| - 1;
      var before, step := steps[..n], steps[n];
      assert steps == before + [step];
      AllowedBefore(Next, BelowTop, Init(start), before, step);
      IdsFollowClock(start, before);
      RunOneMore(Next, Init(start), before, step);
      StepCarries(start, before, step);
      StepDraws(start, before, step);
    }
  }

  lemma StepDraws(start: int64, steps: seq<Step>, step: Step)
    requires var g := Run(Next, Init(start), steps);
             && g.value == Before(start, g.drawn, |g.drawn|) && AllCarry(start, steps, g) && BelowTop(g, step)
             && forall n: nat | n < |g.drawn| :: DrawnLeast(start, steps, g.drawn, n)
    ensures var g' := Next(Run(Next, Init(start), steps), step);
            && g'.value == Before(start, g'.drawn, |g'.drawn|)
            && forall n: nat | n < |g'.drawn| :: DrawnLeast(start, steps + [step], g'.drawn, n)
  {
    var g := Run(Next, Init(start), steps);
    var g' := Next(g, step);
    if Draws(g, step) {
      DrawnNow(start, steps, step);
    }
    forall n: nat | n < |g.drawn| ensures DrawnLeast(start, steps + [step], g'.drawn, n) {
      assert DrawnLeast(start, steps, g.drawn, n);
      var j: nat :| DrawnAt(start, steps, j, g.drawn, n);
      DrawnStays(start, steps, step, j, g.drawn, g'.drawn, n);
    }
  }

  // ------------------------------------------------------------ how long the value stays below its top

  predicate ReadsUpTo(limit: int, step: Step) {
    (step.Begin? || step.Fail?) ==> step.time as int <= limit
  }

  ghost predicate Bounded(g: Generator, limit: int) {
    && (g.value as int) <= limit + |g.drawn|
    && forall t | t in g.threads && !g.threads[t].Idle? :: g.threads[t].time as int <= limit
  }

  /** Clock readings up to a limit keep the value below its top until the ids drawn use up the rest: a run
      of fewer steps than that is never near it. */
  lemma {:induction false} ClockKeepsBelowTop(g: Generator, steps: seq<Step>, limit: int)
    requires Bounded(g, limit) && limit + |g.drawn| + |steps| <= MAX_INT64
    requires forall i | 0 <= i < |steps| :: ReadsUpTo(limit, steps[i])
    ensures Allowed(Next, BelowTop, g, steps)
    decreases |steps|
  {
    if steps != [] {
      assert ReadsUpTo(limit, steps[0]);
      ClockKeepsBelowTop(Next(g, steps[0]), steps[1..], limit);
    }
  }

  /** At the top the next id is no greater than the one before it, whatever the sum gives. */
  lemma TopNeverGrows(thread: nat, time: int64, overflow: int64)
    ensures var top := MAX_INT64 as int64;
            var call := [Begin(thread, time), Load(thread, top), Exchange(thread, overflow)];
            Run(Next, Init(top), call).drawn == [Drawn(overflow, 0)] && overflow <= top
  {
    var g := Init(MAX_INT64 as int64);
    var call := [Begin(thread, time), Load(thread, g.value), Exchange(thread, overflow)];
    var g1 := Next(g, call[0]);
    var g2 := Next(g1, call[1]);
    calc {
      Run(Next, g, call);
      Run(Next, g1, call[1..]);
      { assert call[1..][1..] == [call[2]]; }
      Run(Next, g2, [call[2]]);
      Next(g2, call[2]);
    }
  }

  // ------------------------------------------------------------ the loop of one call

  /** One pass of the loop: what other threads put into the value first, whether the exchange fails
      spuriously, the clock reading taken after a failure, and what a sum above the top gives. */
  datatype Pass = Pass(interference: Option<int64>, spurious: bool, time: int64, overflow: int64)

  function Disturbed(value: int64, pass: Pass): int64 {
    if pass.interference.Some? then pass.interference.value else value
  }

  /** The id a call gets, if it gets one within these passes, and the value afterwards. */
  function Spin(value: int64, last: int64, time: int64, passes: seq<Pass>): (Option<int64>, int64)
    decreases |passes|
  {
    if passes == [] then (None, value)
    else
      var v := Disturbed(value, passes[0]);
      var id := Candidate(time, last, passes[0].overflow);
      if v == last && !passes[0].spurious then (Some(id), id)
      else Spin(v, v, passes[0].time, passes[1..])
  }

  /** Other threads only ever raise the value, and stay below the top. */
  predicate Rising(value: int64, passes: seq<Pass>)
    decreases |passes|
  {
    passes == [] ||
    (var v := Disturbed(value, passes[0]); value <= v && (v as int) < MAX_INT64 && Rising(v, passes[1..]))
  }

  /** The id is greater than the value was at any time before, and the value never falls. */
  lemma {:induction false} SpinExceeds(value: int64, last: int64, time: int64, passes: seq<Pass>)
    requires Rising(value, passes)
    ensures value <= Spin(value, last, time, passes).1
    ensures Spin(value, last, time, passes).0.Some? ==>
              Spin(value, last, time, passes).0.value == Spin(value, last, time, passes).1 > value
    decreases |passes|
  {
    if passes != [] {
      var v := Disturbed(value, passes[0]);
      SpinExceeds(v, v, passes[0].time, passes[1..]);
    }
  }

  /** The clock reading a call has when it enters pass `k`. */
  function Reading(time: int64, passes: seq<Pass>, k: nat): int64
    requires k <= |passes|
  {
    if k == 0 then time else passes[k - 1].time
  }

  /** The id a call gets is the least above the value it replaces and not below the call's last clock reading. */
  lemma {:induction false} SpinDrawsLeast(value: int64, last: int64, time: int64, passes: seq<Pass>) returns (k: nat)
    requires Rising(value, passes) && Spin(value, last, time, passes).0.Some?
    ensures k < |passes| && !passes[k].spurious
    ensures LeastAbove(ValueBefore(value, passes, k), Reading(time, passes, k), Spin(value, last, time, passes).0.value)
    ensures Spin(value, last, time, passes).1 == Spin(value, last, time, passes).0.value
    decreases |passes|
  {
    var v := Disturbed(value, passes[0]);
    if v == last && !passes[0].spurious {
      k := 0;
    } else {
      var j := SpinDrawsLeast(v, v, passes[0].time, passes[1..]);
      k := j + 1;
    }
  }

  /** The value the exchange of pass `k` finds, if no pass before it draws. */
  function ValueBefore(value: int64, passes: seq<Pass>, k: nat): int64
    requires k < |passes|
    decreases k
  {
    if k == 0 then Disturbed(value, passes[0]) else ValueBefore(Disturbed(value, passes[0]), passes[1..], k - 1)
  }

  class AtomicInt64 {
    var value: int64

    constructor (start: int64)
      ensures value == start
    {
      value := start;
    }

    /** `expected` comes back as the value found when the exchange fails. */
    method CompareExchangeWeak(expected: int64, desired: int64, spurious: bool) returns (exchanged: bool, found: int64)
      modifies this
      ensures exchanged <==> old(value) == expected && !spurious
      ensures value == if exchanged then desired else old(value)
      ensures found == if exchanged then expected else old(value)
    {
      if value == expected && !spurious {
        value := desired;
        return true, expected;
      }
      return false, value;
    }
  }

  /** One call, with the passes the scheduler gives it; None while it is still trying. */
  method GenerateId(lastValue: AtomicInt64, now: int64, passes: seq<Pass>) returns (id: Option<int64>)
    modifies lastValue
    ensures (id, lastValue.value) == Spin(old(lastValue.value), old(lastValue.value), now, passes)
    ensures Rising(old(lastValue.value), passes) && id.Some? ==>
              exists k: nat :: k < |passes| &&
                LeastAbove(ValueBefore(old(lastValue.value), passes, k), Reading(now, passes, k), id.value)
  {
    if Rising(lastValue.value, passes) && Spin(lastValue.value, lastValue.value, now, passes).0.Some? {
      ghost var k := SpinDrawsLeast(lastValue.value, lastValue.value, now, passes);
    }
    var currentTime := now;
    var last := lastValue.value;
    var i := 0;
    while i < |passes|
      invariant i <= |passes|
      invariant Spin(lastValue.value, last, currentTime, passes[i..])
                == Spin(old(lastValue.value), old(lastValue.value), now, passes)
    {
      assert passes[i..][1..] == passes[i + 1..];
      if passes[i].interference.Some? {
        lastValue.value := passes[i].interference.value;
      }
      var candidate := if currentTime > last then currentTime else Successor(last, passes[i].overflow);
      var exchanged, found := lastValue.CompareExchangeWeak(last, candidate, passes[i].spurious);
      if exchanged {
        return Some(candidate);
      }
      last := found;
      currentTime := passes[i].time;
      i := i + 1;
    }
    return None;
  }
}
