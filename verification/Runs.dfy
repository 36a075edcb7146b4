/** Runs of a protocol: what both consumer protocols share, for any state and any action. */
module Runs {
  import opened Prelude

  /** The state after the actions, if every one of them was possible where it was taken. */
  ghost function Run<S, A>(next: (S, A) -> Option<S>, s: S, actions: seq<A>): Option<S>
    decreases actions
  {
    if actions == [] then Some(s)
    else
      var s' := next(s, actions[0]);
      if s'.None? then None else Run(next, s'.value, actions[1..])
  }

  lemma Cons<S, A>(next: (S, A) -> Option<S>, s: S, a: A, rest: seq<A>)
    requires next(s, a).Some?
    ensures Run(next, s, [a] + rest) == Run(next, next(s, a).value, rest)
  {
    assert ([a] + rest)[1..] == rest;
  }

  lemma {:induction false} Concat<S, A>(next: (S, A) -> Option<S>, s: S, first: seq<A>, second: seq<A>)
    requires Run(next, s, first).Some?
    ensures Run(next, s, first + second) == Run(next, Run(next, s, first).value, second)
    decreases first
  {
    if first == [] {
      assert first + second == second;
    } else {
      assert (first + second)[1..] == first[1..] + second;
      Concat(next, next(s, first[0]).value, first[1..], second);
    }
  }

  /** A state, and the actions taken so far. */
  datatype Traced<+S, +A> = Traced(sys: S, log: seq<A>)

  /** The actions taken since an earlier point. */
  function Since<S, A>(before: Traced<S, A>, after: Traced<S, A>): seq<A>
    requires |before.log| <= |after.log|
  {
    after.log[|before.log|..]
  }

  /** The actions logged between two points are a run of the protocol from one state to the other. */
  ghost predicate Along<S, A>(next: (S, A) -> Option<S>, before: Traced<S, A>, after: Traced<S, A>) {
    before.log <= after.log && Run(next, before.sys, Since(before, after)) == Some(after.sys)
  }

  lemma AlongSelf<S, A>(next: (S, A) -> Option<S>, a: Traced<S, A>)
    ensures Along(next, a, a)
  {
    assert Since(a, a) == [];
  }

  lemma AlongOne<S, A>(next: (S, A) -> Option<S>, a: Traced<S, A>, action: A, b: Traced<S, A>)
    requires b.log == a.log + [action] && next(a.sys, action) == Some(b.sys)
    ensures Along(next, a, b)
  {
    assert Since(a, b) == [action] && [action][1..] == [];
  }

  lemma AlongTrans<S, A>(next: (S, A) -> Option<S>, a: Traced<S, A>, b: Traced<S, A>, c: Traced<S, A>)
    requires Along(next, a, b) && Along(next, b, c)
    ensures Along(next, a, c)
  {
    Concat(next, a.sys, Since(a, b), Since(b, c));
    assert Since(a, c) == Since(a, b) + Since(b, c);
  }

  /** What was a run from the start of the log is one when the log grows along the protocol. */
  lemma AlongExtends<S, A>(next: (S, A) -> Option<S>, s0: S, a: Traced<S, A>, b: Traced<S, A>)
    requires Run(next, s0, a.log) == Some(a.sys) && Along(next, a, b)
    ensures Run(next, s0, b.log) == Some(b.sys)
  {
    Concat(next, s0, a.log, Since(a, b));
    assert a.log + Since(a, b) == b.log;
  }
}
