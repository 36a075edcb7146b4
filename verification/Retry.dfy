/** Bounded retry on transient errors. */
module Retry {
  import opened Prelude

  /**
   An exception: the messages of its chain of causes, outermost first, and whether `except Exception`
   catches it (a KeyboardInterrupt, say, is not caught).
   */
  datatype Failure = Failure(chain: seq<string>, isException: bool)

  const MAX_ATTEMPTS := 5

  function Lower(c: char): char { if 'A' <= c <= 'Z' then (c as int + 32) as char else c }

  function Lowered(s: string): string { seq(|s|, i requires 0 <= i < |s| => Lower(s[i])) }

  predicate OccursAt(s: string, i: nat, needle: string) {
    i + |needle| <= |s| && s[i..i + |needle|] == needle
  }

  predicate Contains(s: string, needle: string) {
    exists i :: 0 <= i <= |s| && OccursAt(s, i, needle)
  }

  predicate TransientMessage(message: string) {
    Contains(Lowered(message), "database is locked") || Contains(Lowered(message), "thread::join failed")
  }

  /** Some exception on the cause chain has a message known to be transient. */
  predicate Transient(failure: Failure) {
    exists i :: 0 <= i < |failure.chain| && TransientMessage(failure.chain[i])
  }

  method IsTransientError(failure: Failure) returns (transient: bool)
    ensures transient <==> Transient(failure)
  {
    var current := failure.chain;
    ghost var passed := 0;
    while current != []
      invariant passed <= |failure.chain| && current == failure.chain[passed..]
      invariant forall i :: 0 <= i < passed ==> !TransientMessage(failure.chain[i])
    {
      if Contains(Lowered(current[0]), "database is locked") {
        return true;
      }
      if Contains(Lowered(current[0]), "thread::join failed") {
        return true;
      }
      current := current[1..];
      passed := passed + 1;
    }
    return false;
  }

  /** The phrases that mark a transient error. */
  const PHRASES: set<string> := {"database is locked", "thread::join failed"}

  /** A message with one of the phrases in it, in any mix of cases, is transient. */
  lemma PhraseIsTransient(message: string, before: string, phrase: string, rest: string)
    requires phrase in PHRASES && Lowered(message) == before + phrase + rest
    ensures TransientMessage(message)
  {
    assert Lowered(message)[|before|..|before| + |phrase|] == phrase;
    assert OccursAt(Lowered(message), |before|, phrase);
  }

  /** And no other message is. */
  lemma TransientHasPhrase(message: string) returns (before: string, phrase: string, rest: string)
    requires TransientMessage(message)
    ensures phrase in PHRASES && Lowered(message) == before + phrase + rest
  {
    var low := Lowered(message);
    phrase := if Contains(low, "database is locked") then "database is locked" else "thread::join failed";
    var i :| 0 <= i <= |low| && OccursAt(low, i, phrase);
    before, rest := low[..i], low[i + |phrase|..];
  }

  /** Lowering changes the letters A to Z to a to z, and nothing else. */
  lemma LoweredLetters(s: string, i: nat)
    requires i < |s|
    ensures |Lowered(s)| == |s|
    ensures var c, low := s[i], Lowered(s)[i];
            if 'A' <= c <= 'Z' then 'a' <= low <= 'z' && low as int - 'a' as int == c as int - 'A' as int
            else low == c
  {
  }

  /** An error is transient exactly when one of the errors it was raised from is, however deep. */
  lemma TransientAnywhere(outer: seq<string>, message: string, inner: seq<string>, isException: bool)
    ensures Transient(Failure(outer + [message] + inner, isException))
            <==> || TransientMessage(message)
                 || Transient(Failure(outer, isException)) || Transient(Failure(inner, isException))
  {
    var chain := outer + [message] + inner;
    assert chain[|outer|] == message;
    assert forall i :: 0 <= i < |outer| ==> chain[i] == outer[i];
    assert forall i :: 0 <= i < |inner| ==> chain[|outer| + 1 + i] == inner[i];
    if Transient(Failure(chain, isException)) {
      var i :| 0 <= i < |chain| && TransientMessage(chain[i]);
      assert i > |outer| ==> chain[i] == inner[i - |outer| - 1];
    }
  }

  datatype Outcome<+T> = Returned(value: T) | Raised(failure: Failure)

  /** One try of an operation that may change a state: what it leaves behind and how it ends. */
  type Operation<!S, T> = (nat, S) -> (S, Outcome<T>)

  predicate Decisive<T>(o: Outcome<T>) { o.Returned? || !Transient(o.failure) }

  datatype Retried<+S, +T> = Retried(state: S, outcome: Outcome<T>, calls: nat)

  /** Try number k onwards, with `left` tries to go. */
  function RetryFrom<S, T>(op: Operation<S, T>, s: S, k: nat, left: nat): Retried<S, T>
    requires left >= 1
    decreases left
  {
    var (s', o) := op(k, s);
    if Decisive(o) || left == 1 then Retried(s', o, k + 1)
    else RetryFrom(op, s', k + 1, left - 1)
  }

  /** The default policy: up to maxAttempts tries with a fixed sleep between tries.  None is the ValueError. */
  method RetryOnTransient<S, T>(op: Operation<S, T>, s: S, maxAttempts: int)
    returns (r: Option<Retried<S, T>>, sleeps: nat)
    ensures maxAttempts < 1 ==> r == None && sleeps == 0
    ensures maxAttempts >= 1 ==> r == Some(RetryFrom(op, s, 0, maxAttempts))
    ensures maxAttempts >= 1 ==> sleeps == RetryFrom(op, s, 0, maxAttempts).calls - 1
  {
    sleeps := 0;
    if maxAttempts < 1 {
      return None, sleeps;
    }
    var state := s;
    for attempt := 0 to maxAttempts
      invariant sleeps == attempt < maxAttempts || attempt == maxAttempts == 0
      invariant RetryFrom(op, s, 0, maxAttempts) == RetryFrom(op, state, attempt, maxAttempts - attempt)
    {
      var (after, outcome) := op(attempt, state);
      state := after;
      if outcome.Returned? {
        return Some(Retried(state, outcome, attempt + 1)), sleeps;
      }
      var transient := IsTransientError(outcome.failure);
      if !transient || attempt + 1 >= maxAttempts {
        return Some(Retried(state, outcome, attempt + 1)), sleeps;
      }
      sleeps := sleeps + 1;
    }
  }

  // ------------------------------------------------------------------ what the retry returns

  /** The state before try k, when every earlier try has been made. */
  function StateAt<S, T>(op: Operation<S, T>, s: S, k: nat): S {
    if k == 0 then s else op(k - 1, StateAt(op, s, k - 1)).0
  }

  function OutcomeAt<S, T>(op: Operation<S, T>, s: S, k: nat): Outcome<T> { op(k, StateAt(op, s, k)).1 }

  lemma {:induction false} RetryIsFirstDecisiveFrom<S, T>(op: Operation<S, T>, s: S, k: nat, left: nat)
    requires left >= 1
    ensures var r := RetryFrom(op, StateAt(op, s, k), k, left);
            && k < r.calls <= k + left
            && r.state == StateAt(op, s, r.calls)
            && r.outcome == OutcomeAt(op, s, r.calls - 1)
            && (forall i :: k <= i < r.calls - 1 ==> !Decisive(OutcomeAt(op, s, i)))
            && (Decisive(r.outcome) || r.calls == k + left)
    decreases left
  {
    if !(Decisive(OutcomeAt(op, s, k)) || left == 1) {
      RetryIsFirstDecisiveFrom(op, s, k + 1, left - 1);
    }
  }

  /**
   The retry returns the first outcome that is a value or a non-transient error among the first
   maxAttempts, or, when there is none, the last transient error; it makes exactly that many calls.
   */
  lemma RetryIsFirstDecisive<S, T>(op: Operation<S, T>, s: S, maxAttempts: nat)
    requires maxAttempts >= 1
    ensures var r := RetryFrom(op, s, 0, maxAttempts);
            && 1 <= r.calls <= maxAttempts
            && r.state == StateAt(op, s, r.calls)
            && r.outcome == OutcomeAt(op, s, r.calls - 1)
            && (forall i :: 0 <= i < r.calls - 1 ==> !Decisive(OutcomeAt(op, s, i)))
            && (Decisive(r.outcome) || r.calls == maxAttempts)
  {
    RetryIsFirstDecisiveFrom(op, s, 0, maxAttempts);
  }

  /** By default a call that only ever fails transiently is made five times, and then its last error is raised. */
  lemma DefaultGivesUpAfterFive<S, T>(op: Operation<S, T>, s: S)
    requires forall i :: 0 <= i < 5 ==> !Decisive(OutcomeAt(op, s, i))
    ensures var r := RetryFrom(op, s, 0, MAX_ATTEMPTS);
            r.calls == 5 && r.outcome == OutcomeAt(op, s, 4)
  {
    RetryIsFirstDecisive(op, s, MAX_ATTEMPTS);
  }

  /**
   Every try of op leaves what matters of the state, its view, alone or applies the effect to it; a returned
   value means that the effect was applied.
   */
  ghost predicate Attempts<S(!new), T(!new), V(!new)>(op: Operation<S, T>, view: S -> V, effect: V -> V) {
    forall k: nat, s: S ::
      var (s', o) := op(k, s);
      (view(s') == view(s) || view(s') == effect(view(s))) && (o.Returned? ==> view(s') == effect(view(s)))
  }

  ghost predicate Idempotent<V(!new)>(effect: V -> V) {
    forall v: V :: effect(effect(v)) == effect(v)
  }

  /**
   Retrying an idempotent effect is the same as one try: a success leaves exactly one application, and a
   failure leaves one application or none, wherever the transient failures struck.
   */
  lemma {:induction false} RetryIdempotent<S(!new), T(!new), V(!new)>(
    op: Operation<S, T>, view: S -> V, effect: V -> V, v0: V, s: S, k: nat, left: nat)
    requires left >= 1 && Attempts(op, view, effect) && Idempotent(effect)
    requires view(s) == v0 || view(s) == effect(v0)
    ensures var r := RetryFrom(op, s, k, left);
            && (view(r.state) == v0 || view(r.state) == effect(v0))
            && (r.outcome.Returned? ==> view(r.state) == effect(v0))
    decreases left
  {
    var (s', o) := op(k, s);
    assert effect(effect(v0)) == effect(v0);
    assert (view(s') == view(s) || view(s') == effect(view(s))) && (o.Returned? ==> view(s') == effect(view(s)));
    if !(Decisive(o) || left == 1) {
      RetryIdempotent(op, view, effect, v0, s', k + 1, left - 1);
    }
  }
}
