/**
 Lease policy at start-up.  Times are integer milliseconds on one clock that never goes back; lease
 intervals are whole seconds, as the catalog stores them.
 */
module Lease {
  import opened Prelude

  const POLL_INTERVAL := 500
  const FRESHNESS_GRACE := 5000

  datatype Entry = Entry(owner: Option<string>, heartbeat: Option<int>, intervalSeconds: Option<int>)

  /** How old a heartbeat may be before the lease counts as abandoned. */
  function CutoffAge(entry: Entry): int {
    var interval := if entry.intervalSeconds.Some? then entry.intervalSeconds.value else 0;
    interval * 1000 + Max(FRESHNESS_GRACE, interval * 500)
  }

  predicate LeaseIsAlive(entry: Entry, now: int) {
    && entry.owner.Some?
    && (entry.heartbeat.Some? ==> now - entry.heartbeat.value <= CutoffAge(entry))
  }

  /** The consumer is listed and its lease is alive. */
  predicate Held(entry: Option<Entry>, now: int) { entry.Some? && LeaseIsAlive(entry.value, now) }

  /** One lookup: when it was made, what it found, and the clock at the deadline check that follows. */
  datatype Sighting = Sighting(at: int, entry: Option<Entry>, checkedAt: int)

  type Schedule = nat -> Sighting

  /** The clock never goes back, and between two lookups of the loop it sleeps the poll interval. */
  ghost predicate Ticking(sightings: Schedule) {
    && (forall i: nat :: sightings(i).at <= sightings(i).checkedAt)
    && sightings(0).checkedAt <= sightings(1).at
    && forall i: nat :: i >= 1 ==> sightings(i).checkedAt + POLL_INTERVAL <= sightings(i + 1).at
  }

  datatype Policy = Wait | Takeover | Error

  datatype Verdict = Free | Refused | ForceReleased | TimedOut

  /** The wait loop from lookup i on: its verdict and the index of its last lookup. */
  ghost function WaitFrom(sightings: Schedule, deadline: int, i: nat): (r: (Verdict, nat))
    requires Ticking(sightings) && i >= 1
    ensures r.1 >= i && (r.0 == Free || r.0 == TimedOut)
    decreases deadline - sightings(i).at
  {
    var s := sightings(i);
    assert s.at <= s.checkedAt;
    if !Held(s.entry, s.at) then (Free, i)
    else if s.checkedAt >= deadline then (TimedOut, i)
    else WaitFrom(sightings, deadline, i + 1)
  }

  /** The verdict, and the index of the last lookup; lookup 0 is the one before the policy is consulted. */
  ghost function Decide(policy: Policy, timeout: nat, sightings: Schedule): (Verdict, nat)
    requires Ticking(sightings)
  {
    var first := sightings(0);
    if !Held(first.entry, first.at) then (Free, 0)
    else
      match policy
      case Error => (Refused, 0)
      case Takeover => (ForceReleased, 0)
      case Wait => WaitFrom(sightings, first.checkedAt + timeout, 1)
  }

  method ApplyLeasePolicy(policy: Policy, timeout: nat, sightings: Schedule) returns (verdict: Verdict, last: nat)
    requires Ticking(sightings)
    ensures (verdict, last) == Decide(policy, timeout, sightings)
  {
    var s := sightings(0);
    last := 0;
    if !Held(s.entry, s.at) {
      return Free, last;
    }
    if policy == Error {
      return Refused, last;
    }
    if policy == Takeover {
      return ForceReleased, last;
    }
    var deadline := s.checkedAt + timeout;
    while true
      invariant WaitFrom(sightings, deadline, 1) == WaitFrom(sightings, deadline, last + 1)
      decreases deadline - sightings(last + 1).at
    {
      last := last + 1;
      s := sightings(last);
      if !Held(s.entry, s.at) {
        return Free, last;
      }
      if s.checkedAt >= deadline {
        return TimedOut, last;
      }
      assert s.at <= s.checkedAt && s.checkedAt + POLL_INTERVAL <= sightings(last + 1).at;
    }
  }

  /** When a lease counts as held.  The age of the heartbeat is in milliseconds. */
  lemma HeldExactlyWhen(entry: Option<Entry>, now: int)
    ensures entry.None? || entry.value.owner.None? ==> !Held(entry, now)
    ensures entry.Some? && entry.value.owner.Some? && entry.value.heartbeat.None? ==> Held(entry, now)
    ensures entry.Some? && entry.value.owner.Some? && entry.value.heartbeat.Some? ==>
              var age := now - entry.value.heartbeat.value;
              match entry.value.intervalSeconds
              case None => Held(entry, now) <==> age <= 5000
              case Some(n) => Held(entry, now) <==> age <= 1000 * n + 5000 || 2 * age <= 3000 * n
  {
  }

  /**
   What each policy does, for everything the lookups may find.  "error" refuses and "takeover" releases
   exactly when the first lookup found the lease held; neither looks again, and only "wait" can time out.
   */
  lemma PolicyDecides(policy: Policy, timeout: nat, sightings: Schedule)
    requires Ticking(sightings)
    ensures var (verdict, last) := Decide(policy, timeout, sightings);
            var held := Held(sightings(0).entry, sightings(0).at);
            && (verdict == Refused <==> policy == Error && held)
            && (verdict == ForceReleased <==> policy == Takeover && held)
            && (verdict == TimedOut ==> policy == Wait && held)
            && (!held ==> verdict == Free)
            && (last == 0 <==> policy != Wait || !held)
  {
  }

  lemma {:induction false} WaitEndsFree(sightings: Schedule, deadline: int, i: nat)
    requires Ticking(sightings) && i >= 1
    ensures var (verdict, last) := WaitFrom(sightings, deadline, i);
            var s := sightings(last);
            && (forall k: nat :: i <= k < last ==>
                  Held(sightings(k).entry, sightings(k).at) && sightings(k).checkedAt < deadline)
            && if verdict == Free then !Held(s.entry, s.at) else Held(s.entry, s.at) && s.checkedAt >= deadline
    decreases deadline - sightings(i).at
  {
    var s := sightings(i);
    assert s.at <= s.checkedAt;
    if Held(s.entry, s.at) && s.checkedAt < deadline {
      WaitEndsFree(sightings, deadline, i + 1);
    }
  }

  /**
   A normal return under "wait" means the last lookup found no live lease; a timeout means the last lookup
   still found one, and the whole timeout had passed.  It is the first lookup for which either is so: every
   earlier one found the lease held, and those of the loop came before the deadline.
   */
  lemma WaitReturnsOnlyWhenFree(timeout: nat, sightings: Schedule)
    requires Ticking(sightings)
    ensures var (verdict, last) := Decide(Wait, timeout, sightings);
            var s := sightings(last);
            && verdict in {Free, TimedOut}
            && (verdict == Free <==> !Held(s.entry, s.at))
            && (verdict == TimedOut ==> last >= 1 && s.checkedAt >= sightings(0).checkedAt + timeout)
            && (forall k: nat :: k < last ==> Held(sightings(k).entry, sightings(k).at))
            && (forall k: nat :: 1 <= k < last ==> sightings(k).checkedAt < sightings(0).checkedAt + timeout)
  {
    if Held(sightings(0).entry, sightings(0).at) {
      WaitEndsFree(sightings, sightings(0).checkedAt + timeout, 1);
    }
  }

  /** The i-th lookup of the loop comes at least i - 1 sleeps after the deadline was set. */
  lemma {:induction false} LookupsAreSpaced(sightings: Schedule, i: nat)
    requires Ticking(sightings) && i >= 1
    ensures sightings(0).checkedAt + POLL_INTERVAL * (i - 1) <= sightings(i).at <= sightings(i).checkedAt
  {
    assert sightings(i).at <= sightings(i).checkedAt;
    if i > 1 {
      LookupsAreSpaced(sightings, i - 1);
      assert sightings(i - 1).checkedAt + POLL_INTERVAL <= sightings(i - 1 + 1).at;
    }
  }

  lemma {:induction false} WaitStopsEarly(sightings: Schedule, timeout: nat, i: nat)
    requires Ticking(sightings) && i >= 1 && POLL_INTERVAL * (i - 1) < timeout + POLL_INTERVAL
    ensures var last := WaitFrom(sightings, sightings(0).checkedAt + timeout, i).1;
            POLL_INTERVAL * (last - 1) < timeout + POLL_INTERVAL
    decreases sightings(0).checkedAt + timeout - sightings(i).at
  {
    var s := sightings(i);
    LookupsAreSpaced(sightings, i);
    if Held(s.entry, s.at) && s.checkedAt < sightings(0).checkedAt + timeout {
      WaitStopsEarly(sightings, timeout, i + 1);
    }
  }

  /** The loop makes at most ceil(timeout / 0.5 s) + 1 lookups. */
  lemma LookupsAreBounded(timeout: nat, sightings: Schedule)
    requires Ticking(sightings)
    ensures Decide(Wait, timeout, sightings).1 <= (timeout + POLL_INTERVAL - 1) / POLL_INTERVAL + 1
  {
    if Held(sightings(0).entry, sightings(0).at) {
      WaitStopsEarly(sightings, timeout, 1);
    }
  }

  /** No lookup of the loop sees the lease renewed. */
  ghost predicate NeverRenewed(sightings: Schedule, entry: Entry) {
    forall i: nat :: sightings(i).entry == Some(entry)
  }

  lemma {:induction false} AtMonotone(sightings: Schedule, i: nat, j: nat)
    requires Ticking(sightings) && 1 <= i <= j
    ensures sightings(i).at <= sightings(j).at
  {
    if i < j {
      AtMonotone(sightings, i, j - 1);
      assert sightings(j - 1).at <= sightings(j - 1).checkedAt;
      assert sightings(j - 1).checkedAt + POLL_INTERVAL <= sightings(j - 1 + 1).at;
    }
  }

  lemma {:induction false} WaitOnStaleLease(sightings: Schedule, entry: Entry, deadline: int, i: nat, k: nat)
    requires Ticking(sightings) && NeverRenewed(sightings, entry) && 1 <= i <= k
    requires entry.owner.Some? && entry.heartbeat.Some?
    requires sightings(k).checkedAt >= deadline
    requires forall j: nat :: i <= j < k ==> sightings(j).checkedAt < deadline
    ensures WaitFrom(sightings, deadline, i).0 == TimedOut
            <==> sightings(k).at <= entry.heartbeat.value + CutoffAge(entry)
    decreases k - i
  {
    assert sightings(i).entry == Some(entry);
    AtMonotone(sightings, i, k);
    if i < k && LeaseIsAlive(entry, sightings(i).at) {
      WaitOnStaleLease(sightings, entry, deadline, i + 1, k);
    }
  }

  /**
   A lease whose heartbeat is never renewed.  If k is the first lookup whose deadline check comes too late,
   the wait times out exactly when that lookup is still within the heartbeat's cutoff age.
   */
  lemma StaleLeaseVerdict(timeout: nat, sightings: Schedule, entry: Entry, k: nat)
    requires Ticking(sightings) && NeverRenewed(sightings, entry) && k >= 1
    requires entry.owner.Some? && entry.heartbeat.Some? && LeaseIsAlive(entry, sightings(0).at)
    requires sightings(k).checkedAt >= sightings(0).checkedAt + timeout
    requires forall j: nat :: 1 <= j < k ==> sightings(j).checkedAt < sightings(0).checkedAt + timeout
    ensures Decide(Wait, timeout, sightings).0 == TimedOut
            <==> sightings(k).at <= entry.heartbeat.value + CutoffAge(entry)
  {
    assert sightings(0).entry == Some(entry);
    WaitOnStaleLease(sightings, entry, sightings(0).checkedAt + timeout, 1, k);
  }

  /**
   An abandoned lease is never waited for in vain: if its cutoff falls before the deadline, and no time
   passes between a lookup and its deadline check, the wait does not time out.
   */
  lemma AbandonedLeaseIsTaken(timeout: nat, sightings: Schedule, entry: Entry)
    requires Ticking(sightings) && NeverRenewed(sightings, entry)
    requires forall i: nat :: sightings(i).at == sightings(i).checkedAt
    requires entry.owner.Some? && entry.heartbeat.Some?
    requires entry.heartbeat.value + CutoffAge(entry) < sightings(0).checkedAt + timeout
    ensures Decide(Wait, timeout, sightings).0 == Free
  {
    WaitReturnsOnlyWhenFree(timeout, sightings);
    var last := Decide(Wait, timeout, sightings).1;
    assert sightings(last).entry == Some(entry) && sightings(last).at == sightings(last).checkedAt;
  }
}
