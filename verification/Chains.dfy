/** Runs of any step function, step by step. */
module Chains {
  import opened Wrappers

  /** The run leads from s to t, for any step function. */
  predicate Leads<S(==), A>(next: (S, A) -> Option<S>, s: S, run: seq<A>, t: S)
    decreases |run|
  {
    if run == [] then s == t else next(s, run[0]).Some? && Leads(next, next(s, run[0]).value, run[1..], t)
  }

  lemma {:induction false} LeadsConcat<S, A>(next: (S, A) -> Option<S>, s: S, a: seq<A>, t: S, b: seq<A>, u: S)
    requires Leads(next, s, a, t) && Leads(next, t, b, u)
    ensures Leads(next, s, a + b, u)
    decreases |a|
  {
    if a == [] {
      assert a + b == b;
    } else {
      LeadsConcat(next, next(s, a[0]).value, a[1..], t, b, u);
      assert (a + b)[0] == a[0] && (a + b)[1..] == a[1..] + b;
    }
  }

  /** Every state of the run, first and last included, is good. */
  predicate Along<S, A>(next: (S, A) -> Option<S>, good: S -> bool, s: S, run: seq<A>)
    decreases |run|
  {
    good(s) && (run == [] || (next(s, run[0]).Some? && Along(next, good, next(s, run[0]).value, run[1..])))
  }

  lemma {:induction false} AlongConcat<S, A>(next: (S, A) -> Option<S>, good: S -> bool, s: S, a: seq<A>, t: S, b: seq<A>)
    requires Leads(next, s, a, t) && Along(next, good, s, a) && Along(next, good, t, b)
    ensures Along(next, good, s, a + b)
    decreases |a|
  {
    if a == [] {
      assert a + b == b;
    } else {
      AlongConcat(next, good, next(s, a[0]).value, a[1..], t, b);
      assert (a + b)[0] == a[0] && (a + b)[1..] == a[1..] + b;
    }
  }
}
