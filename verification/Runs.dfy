/** Finite runs of a machine given by its step function. */
module Runs {
  import opened Bytes

  /** The state after a sequence of events, None when one of them was not possible. */
  ghost function Run<S, E>(step: (S, E) -> Option<S>, s: S, events: seq<E>): Option<S>
    decreases |events|
  {
    if events == [] then Some(s)
    else
      var before := Run(step, s, events[..|events| - 1]);
      if before.Some? then step(before.value, events[|events| - 1]) else None
  }

  lemma {:induction false} RunAppend<S, E>(step: (S, E) -> Option<S>, s: S, a: seq<E>, b: seq<E>)
    requires Run(step, s, a).Some?
    ensures Run(step, s, a + b) == Run(step, Run(step, s, a).value, b)
    decreases |b|
  {
    if b == [] {
      assert a + b == a;
    } else {
      var n := |b| - 1;
      RunAppend(step, s, a, b[..n]);
      assert (a + b)[..|a| + n] == a + b[..n];
    }
  }

  lemma RunCons<S, E>(step: (S, E) -> Option<S>, s: S, e: E, rest: seq<E>)
    requires step(s, e).Some?
    ensures Run(step, s, [e] + rest) == Run(step, step(s, e).value, rest)
  {
    assert [e][..0] == [];
    assert Run(step, s, [e]) == step(s, e);
    RunAppend(step, s, [e], rest);
  }

  /** The first step of a possible run. */
  lemma {:induction false} RunFirst<S, E>(step: (S, E) -> Option<S>, s: S, e: E, rest: seq<E>)
    requires Run(step, s, [e] + rest).Some?
    ensures step(s, e).Some? && Run(step, s, [e] + rest) == Run(step, step(s, e).value, rest)
    decreases |rest|
  {
    if rest == [] {
      assert [e] + rest == [e];
      assert [e][..0] == [];
    } else {
      var n := |rest| - 1;
      assert ([e] + rest)[..n + 1] == [e] + rest[..n];
      RunFirst(step, s, e, rest[..n]);
    }
  }

  /** Some events lead from `s` to `t`. */
  ghost predicate Leads<S, E(!new)>(step: (S, E) -> Option<S>, s: S, t: S) {
    exists events :: Run(step, s, events) == Some(t)
  }

  lemma LeadsNowhere<S, E(!new)>(step: (S, E) -> Option<S>, s: S)
    ensures Leads(step, s, s)
  {
    assert Run(step, s, []) == Some(s);
  }

  /** A step, then a run. */
  lemma LeadsFrom<S, E(!new)>(step: (S, E) -> Option<S>, s: S, e: E, t: S)
    requires step(s, e).Some? && Leads(step, step(s, e).value, t)
    ensures Leads(step, s, t)
  {
    var rest :| Run(step, step(s, e).value, rest) == Some(t);
    RunCons(step, s, e, rest);
    assert Run(step, s, [e] + rest) == Some(t);
  }

  /** A run, then a step. */
  lemma LeadsThen<S, E(!new)>(step: (S, E) -> Option<S>, s: S, t: S, e: E)
    requires Leads(step, s, t) && step(t, e).Some?
    ensures Leads(step, s, step(t, e).value)
  {
    var events :| Run(step, s, events) == Some(t);
    assert (events + [e])[..|events|] == events;
    assert Run(step, s, events + [e]) == step(t, e);
  }

  lemma LeadsTrans<S, E(!new)>(step: (S, E) -> Option<S>, s: S, t: S, u: S)
    requires Leads(step, s, t) && Leads(step, t, u)
    ensures Leads(step, s, u)
  {
    var a :| Run(step, s, a) == Some(t);
    var b :| Run(step, t, b) == Some(u);
    RunAppend(step, s, a, b);
    assert Run(step, s, a + b) == Some(u);
  }

  // ---------- steps of a relation ----------

  /** `n` steps of a relation lead from `s` to `t`. */
  ghost predicate Steps<S(!new)>(r: (S, S) -> bool, s: S, n: nat, t: S) {
    if n == 0 then t == s else exists u :: Steps(r, s, n - 1, u) && r(u, t)
  }

  /** `n` steps of one relation, then a step of another. */
  ghost predicate StepsThen<S(!new)>(r: (S, S) -> bool, last: (S, S) -> bool, s: S, n: nat, u: S) {
    exists t :: Steps(r, s, n, t) && last(t, u)
  }

  lemma StepsMore<S(!new)>(r: (S, S) -> bool, s: S, n: nat, t: S, u: S)
    requires Steps(r, s, n, t) && r(t, u)
    ensures Steps(r, s, n + 1, u)
  {
  }

  lemma {:induction false} FirstStep<S(!new)>(r: (S, S) -> bool, s: S, n: nat, t: S) returns (u: S)
    requires n > 0 && Steps(r, s, n, t)
    ensures r(s, u)
  {
    var v :| Steps(r, s, n - 1, v) && r(v, t);
    if n == 1 {
      u := t;
    } else {
      u := FirstStep(r, s, n - 1, v);
    }
  }

  /** What every step keeps, all of them keep. */
  lemma {:induction false} StepsKeep<S(!new)>(r: (S, S) -> bool, inv: S -> bool, s: S, n: nat, t: S)
    requires Steps(r, s, n, t) && inv(s) && forall u, v {:trigger r(u, v)} :: inv(u) && r(u, v) ==> inv(v)
    ensures inv(t)
  {
    if n > 0 {
      var u :| Steps(r, s, n - 1, u) && r(u, t);
      StepsKeep(r, inv, s, n - 1, u);
    }
  }
}
