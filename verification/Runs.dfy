/** Runs of a step system, given by the partial function from a state and a step to the state after it. */
module Runs {
  import opened Concepts

  /** The state after the steps; None if one of them cannot be taken. */
  ghost function Run<S, A>(next: (S, A) -> Option<S>, s: S, steps: seq<A>): Option<S>
    decreases |steps|
  {
    if steps == [] then Some(s)
    else
      match next(s, steps[0])
      case None => None
      case Some(s1) => Run(next, s1, steps[1..])
  }

  ghost predicate Reaches<S, A(!new)>(next: (S, A) -> Option<S>, s: S, s': S) {
    exists steps: seq<A> :: Run(next, s, steps) == Some(s')
  }

  lemma {:induction false} Compose<S, A>(next: (S, A) -> Option<S>, s: S, a: seq<A>, b: seq<A>)
    requires Run(next, s, a).Some?
    ensures Run(next, s, a + b) == Run(next, Run(next, s, a).value, b)
    decreases |a|
  {
    if a == [] {
      assert a + b == b;
    } else {
      assert (a + b)[1..] == a[1..] + b;
      Compose(next, next(s, a[0]).value, a[1..], b);
    }
  }

  lemma Reflexive<S, A(!new)>(next: (S, A) -> Option<S>, s: S)
    ensures Reaches(next, s, s)
  {
    assert Run(next, s, []) == Some(s);
  }

  lemma Transitive<S, A(!new)>(next: (S, A) -> Option<S>, s: S, s1: S, s2: S)
    requires Reaches(next, s, s1) && Reaches(next, s1, s2)
    ensures Reaches(next, s, s2)
  {
    var a: seq<A> :| Run(next, s, a) == Some(s1);
    var b: seq<A> :| Run(next, s1, b) == Some(s2);
    Compose(next, s, a, b);
  }

  lemma OneStep<S, A(!new)>(next: (S, A) -> Option<S>, s: S, step: A)
    requires next(s, step).Some?
    ensures Run(next, s, [step]) == next(s, step) && Reaches(next, s, next(s, step).value)
  {
    assert [step][1..] == [];
    assert Run(next, s, [step]) == Some(next(s, step).value);
  }

  /** One more step after a run. */
  lemma Then<S, A(!new)>(next: (S, A) -> Option<S>, s: S, s1: S, step: A)
    requires Reaches(next, s, s1) && next(s1, step).Some?
    ensures Reaches(next, s, next(s1, step).value)
  {
    OneStep(next, s1, step);
    Transitive(next, s, s1, next(s1, step).value);
  }
}
