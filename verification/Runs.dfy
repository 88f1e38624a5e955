/** Induction over the runs of a state machine whose every step names the state it leads to. */
module Runs {

  /** The state before step `i` of a run that starts in `s`; with `i` the length of the run, the state after it. */
  ghost function StateAt<S, T>(s: S, steps: seq<T>, after: T -> S, i: nat): S
    requires i <= |steps|
  {
    if i == 0 then s else after(steps[i - 1])
  }

  ghost predicate IsRun<S, T>(step: (S, T) -> bool, after: T -> S, s: S, steps: seq<T>) {
    forall i :: 0 <= i < |steps| ==> step(StateAt(s, steps, after, i), steps[i])
  }

  ghost predicate Preserves<S(!new), T(!new)>(inv: S -> bool, step: (S, T) -> bool, after: T -> S) {
    forall x, t {:trigger step(x, t)} :: inv(x) && step(x, t) ==> inv(after(t))
  }

  /** What is left of a run is a run from the state reached. */
  lemma {:induction false} SuffixIsRun<S, T>(step: (S, T) -> bool, after: T -> S, s: S, steps: seq<T>, m: nat, n: nat)
    requires IsRun(step, after, s, steps) && m <= n <= |steps|
    ensures IsRun(step, after, StateAt(s, steps, after, m), steps[m..])
    ensures StateAt(StateAt(s, steps, after, m), steps[m..], after, n - m) == StateAt(s, steps, after, n)
  {
    var x, rest := StateAt(s, steps, after, m), steps[m..];
    forall i | 0 <= i < |rest|
      ensures step(StateAt(x, rest, after, i), rest[i])
    {
      assert StateAt(x, rest, after, i) == StateAt(s, steps, after, m + i);
    }
  }

  /** A step followed by a run is a run. */
  lemma {:induction false} PrependIsRun<S, T>(step: (S, T) -> bool, after: T -> S, s: S, t: T, rest: seq<T>)
    requires step(s, t) && IsRun(step, after, after(t), rest)
    ensures IsRun(step, after, s, [t] + rest)
    ensures StateAt(s, [t] + rest, after, |rest| + 1) == StateAt(after(t), rest, after, |rest|)
  {
    var steps := [t] + rest;
    forall i | 0 <= i < |steps|
      ensures step(StateAt(s, steps, after, i), steps[i])
    {
      if i > 0 {
        assert steps[i] == rest[i - 1] && StateAt(s, steps, after, i) == StateAt(after(t), rest, after, i - 1);
      }
    }
  }

  /** Every step puts out the front of what its state still owes. */
  ghost predicate Pays<S(!new), T(!new), O(!new)>(
    inv: S -> bool, step: (S, T) -> bool, after: T -> S, owed: S -> seq<O>, out: T -> seq<O>)
  {
    forall x, t {:trigger step(x, t)} :: inv(x) && step(x, t) ==> owed(x) == out(t) + owed(after(t))
  }

  /** What the steps of a run put out, in order. */
  function Outputs<T, O>(out: T -> seq<O>, steps: seq<T>): seq<O> {
    if steps == [] then [] else Outputs(out, steps[..|steps| - 1]) + out(steps[|steps| - 1])
  }

  lemma {:induction false} OutputsExtend<T, O>(out: T -> seq<O>, steps: seq<T>, n: nat)
    requires 0 < n <= |steps|
    ensures Outputs(out, steps[..n]) == Outputs(out, steps[..n - 1]) + out(steps[n - 1])
  {
    assert steps[..n][..n - 1] == steps[..n - 1];
  }

  lemma Assoc<O>(a: seq<O>, b: seq<O>, c: seq<O>)
    ensures (a + b) + c == a + (b + c)
  {
  }

  /** What every step keeps holds all along a run. */
  lemma {:induction false} InvariantHolds<S(!new), T(!new)>(
    inv: S -> bool, step: (S, T) -> bool, after: T -> S, s: S, steps: seq<T>, n: nat)
    requires n <= |steps| && IsRun(step, after, s, steps)
    requires Preserves(inv, step, after) && inv(s)
    ensures inv(StateAt(s, steps, after, n))
  {
    if n > 0 {
      InvariantHolds(inv, step, after, s, steps, n - 1);
      assert step(StateAt(s, steps, after, n - 1), steps[n - 1]);
    }
  }

  /** Then what a run has put out, followed by
      what its last state owes, is what its first state owed. */
  lemma {:induction false} Telescopes<S(!new), T(!new), O(!new)>(
    inv: S -> bool, step: (S, T) -> bool, after: T -> S, owed: S -> seq<O>, out: T -> seq<O>, s: S, steps: seq<T>, n: nat)
    requires n <= |steps| && IsRun(step, after, s, steps)
    requires Preserves(inv, step, after) && inv(s)
    requires Pays(inv, step, after, owed, out)
    ensures Outputs(out, steps[..n]) + owed(StateAt(s, steps, after, n)) == owed(s)
  {
    if n > 0 {
      Telescopes(inv, step, after, owed, out, s, steps, n - 1);
      InvariantHolds(inv, step, after, s, steps, n - 1);
      var x, t, done := StateAt(s, steps, after, n - 1), steps[n - 1], Outputs(out, steps[..n - 1]);
      calc {
        owed(s);
        done + owed(x);
        { assert step(x, t); }
        done + (out(t) + owed(after(t)));
        { Assoc(done, out(t), owed(after(t))); }
        (done + out(t)) + owed(after(t));
        { OutputsExtend(out, steps, n); }
        Outputs(out, steps[..n]) + owed(after(t));
      }
    }
  }

  /** The number of steps that make progress. */
  function Count<T>(good: T -> bool, steps: seq<T>): nat {
    if steps == [] then 0 else Count(good, steps[..|steps| - 1]) + if good(steps[|steps| - 1]) then 1 else 0
  }

  lemma {:induction false} CountExtend<T>(good: T -> bool, steps: seq<T>, n: nat)
    requires 0 < n <= |steps|
    ensures Count(good, steps[..n]) == Count(good, steps[..n - 1]) + if good(steps[n - 1]) then 1 else 0
  {
    assert steps[..n][..n - 1] == steps[..n - 1];
  }

  /** Every step that makes progress brings the end one closer, if it has not been reached, and no other step changes
      the distance. */
  ghost predicate CountsDown<S(!new), T(!new)>(
    inv: S -> bool, step: (S, T) -> bool, after: T -> S, left: S -> nat, good: T -> bool)
  {
    forall x, t {:trigger step(x, t)} :: inv(x) && step(x, t) ==>
      left(after(t)) == if left(x) > 0 && good(t) then left(x) - 1 else left(x)
  }

  /** Then a run has reached the end once it has made enough progress. */
  lemma {:induction false} ReachesEnd<S(!new), T(!new)>(
    inv: S -> bool, step: (S, T) -> bool, after: T -> S, left: S -> nat, good: T -> bool, s: S, steps: seq<T>, n: nat)
    requires n <= |steps| && IsRun(step, after, s, steps)
    requires Preserves(inv, step, after) && inv(s)
    requires CountsDown(inv, step, after, left, good)
    ensures left(StateAt(s, steps, after, n)) == 0 || left(StateAt(s, steps, after, n)) + Count(good, steps[..n]) == left(s)
  {
    if n > 0 {
      ReachesEnd(inv, step, after, left, good, s, steps, n - 1);
      InvariantHolds(inv, step, after, s, steps, n - 1);
      CountExtend(good, steps, n);
      var x, t := StateAt(s, steps, after, n - 1), steps[n - 1];
      assert step(x, t);
      assert left(after(t)) == if left(x) > 0 && good(t) then left(x) - 1 else left(x);
    }
  }
}
