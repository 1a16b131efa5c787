/** Runs of a state machine given by a total step function, and the induction principles used for them. */
module Runs {

  function Run<S, A>(next: (S, A) -> S, s: S, steps: seq<A>): S
    decreases |steps|
  {
    if steps == [] then s else Run(next, next(s, steps[0]), steps[1..])
  }

  /** Every step of the run satisfies `ok` in the state in which it is taken. */
  predicate Allowed<S, A>(next: (S, A) -> S, ok: (S, A) -> bool, s: S, steps: seq<A>)
    decreases |steps|
  {
    steps == [] || (ok(s, steps[0]) && Allowed(next, ok, next(s, steps[0]), steps[1..]))
  }

  lemma {:induction false} RunConcat<S, A>(next: (S, A) -> S, s: S, a: seq<A>, b: seq<A>)
    ensures Run(next, s, a + b) == Run(next, Run(next, s, a), b)
    decreases |a|
  {
    if a == [] {
      assert a + b == b;
    } else {
      assert (a + b)[1..] == a[1..] + b;
      RunConcat(next, next(s, a[0]), a[1..], b);
    }
  }

  /** The state before step `i`. */
  function StateAt<S, A>(next: (S, A) -> S, s: S, steps: seq<A>, i: nat): S
    requires i <= |steps|
  {
    Run(next, s, steps[..i])
  }

  /** One more step: the states before it are the same, and it takes the last one. */
  lemma RunOneMore<S, A>(next: (S, A) -> S, s: S, steps: seq<A>, step: A)
    ensures Run(next, s, steps + [step]) == next(Run(next, s, steps), step)
    ensures forall i: nat | i <= |steps| :: StateAt(next, s, steps + [step], i) == StateAt(next, s, steps, i)
  {
    RunConcat(next, s, steps, [step]);
    assert Run(next, Run(next, s, steps), [step]) == next(Run(next, s, steps), step);
    forall i: nat | i <= |steps| ensures StateAt(next, s, steps + [step], i) == StateAt(next, s, steps, i) {
      assert (steps + [step])[..i] == steps[..i];
    }
  }

  lemma {:induction false} AllowedBefore<S, A>(next: (S, A) -> S, ok: (S, A) -> bool, s: S, steps: seq<A>, last: A)
    requires Allowed(next, ok, s, steps + [last])
    ensures Allowed(next, ok, s, steps) && ok(Run(next, s, steps), last)
    decreases |steps|
  {
    if steps != [] {
      assert (steps + [last])[1..] == steps[1..] + [last];
      AllowedBefore(next, ok, next(s, steps[0]), steps[1..], last);
    }
  }

  lemma RunOfThree<S, A>(next: (S, A) -> S, s: S, a: A, b: A, c: A)
    ensures Run(next, s, [a, b, c]) == next(next(next(s, a), b), c)
  {
    assert [a, b, c][1..] == [b, c] && [b, c][1..] == [c] && [c][1..] == [];
    assert Run(next, next(next(s, a), b), [c]) == next(next(next(s, a), b), c);
  }

  lemma RunOfSix<S, A>(next: (S, A) -> S, s: S, a: A, b: A, c: A, d: A, e: A, f: A)
    ensures Run(next, s, [a, b, c, d, e, f]) == next(next(next(next(next(next(s, a), b), c), d), e), f)
  {
    assert [a, b, c] + [d, e, f] == [a, b, c, d, e, f];
    RunConcat(next, s, [a, b, c], [d, e, f]);
    RunOfThree(next, s, a, b, c);
    RunOfThree(next, next(next(next(s, a), b), c), d, e, f);
  }

  /** A property that every allowed step keeps holds after every allowed run. */
  lemma {:induction false} RunKeeps<S(!new), A(!new)>(next: (S, A) -> S, ok: (S, A) -> bool, inv: S -> bool, s: S,
                                                      steps: seq<A>)
    requires inv(s) && Allowed(next, ok, s, steps)
    requires forall s, a | inv(s) && ok(s, a) :: inv(next(s, a))
    ensures inv(Run(next, s, steps))
    decreases |steps|
  {
    if steps != [] {
      RunKeeps(next, ok, inv, next(s, steps[0]), steps[1..]);
    }
  }

  lemma {:induction false} AllAllowed<S(!new), A(!new)>(next: (S, A) -> S, ok: (S, A) -> bool, s: S, steps: seq<A>)
    requires forall s, a :: ok(s, a)
    ensures Allowed(next, ok, s, steps)
    decreases |steps|
  {
    if steps != [] {
      AllAllowed(next, ok, next(s, steps[0]), steps[1..]);
    }
  }

  /** `n` blocks of steps, numbered from `i`. */
  function Blocks<A>(block: int -> seq<A>, i: int, n: nat): seq<A>
    decreases n
  {
    if n == 0 then [] else block(i) + Blocks(block, i + 1, n - 1)
  }

  lemma {:induction false} BlocksKeep<S(!new), A>(next: (S, A) -> S, block: int -> seq<A>, inv: (S, int) -> bool, s: S,
                                                  i: int, n: nat)
    requires inv(s, i)
    requires forall s, i | inv(s, i) :: inv(Run(next, s, block(i)), i + 1)
    ensures inv(Run(next, s, Blocks(block, i, n)), i + n)
    decreases n
  {
    if n > 0 {
      RunConcat(next, s, block(i), Blocks(block, i + 1, n - 1));
      BlocksKeep(next, block, inv, Run(next, s, block(i)), i + 1, n - 1);
    }
  }
}
