/**
 `consumer.run()`: deliver each batch to every sink, then commit the cursor outside any transaction.

 Sinks keep what they were given even when they raise, so a row can reach a sink more than once.  The
 protocol promises that required sinks gate the cursor, and that a sink keyed by row identity converges.
 */
module Delivery {
  import opened Prelude
  import opened Feed
  import opened Batches
  import opened Retry
  import Runs

  /**
   How a sink's write ends.  One that raises may have stored any rows of the batch, given by their positions,
   in any order and any number of times.
   */
  datatype WriteResult = Accepted | Refused(stored: seq<nat>, failure: Failure)

  datatype Sink = Sink(required: bool, log: seq<Event>)

  datatype Phase =
    | Idle
    | Delivering(batch: Batch, next: nat)   // sinks below `next` are done with the batch
    | Acked(batch: Batch)                   // every sink is done, cdc_commit is next

  datatype System = System(head: int, cursor: int, sinks: seq<Sink>, phase: Phase)

  /** How one try of cdc_commit ends, and whether the cursor moved although it raised. */
  datatype CommitResult = Committed | NotCommitted(failure: Failure, applied: bool)

  datatype Action =
    | Advance(head: int)
    | Listen(requested: int, e: int, rows: seq<Row>)   // max_snapshots asked for, the window's end, its rows
    | Deliver(result: WriteResult)
    | CdcCommit(reply: CommitResult)
    | Leave                               // an exception propagates, the process dies, or run() returns

  /** The events at these positions; a position past the end names none. */
  function Picked(events: seq<Event>, positions: seq<nat>): seq<Event> {
    if positions == [] then []
    else
      (if positions[0] < |events| then [events[positions[0]]] else []) + Picked(events, positions[1..])
  }

  function Stored(b: Batch, result: WriteResult): seq<Event> {
    match result
    case Accepted => b.events
    case Refused(stored, _) => Picked(b.events, stored)
  }

  /** The write lets the delivery go on: accepted, or refused by an optional sink with an Exception. */
  predicate Passes(required: bool, result: WriteResult) {
    result.Accepted? || (!required && result.failure.isException)
  }

  function AfterWrite(b: Batch, i: nat, count: nat): Phase {
    if i + 1 < count then Delivering(b, i + 1) else Acked(b)
  }

  /** One sink's write: its log grows by what it stored, and control moves on or leaves. */
  function Delivered(s: System, result: WriteResult): System
    requires s.phase.Delivering? && s.phase.next < |s.sinks|
  {
    var b, i := s.phase.batch, s.phase.next;
    var sink := s.sinks[i];
    var phase := if Passes(sink.required, result) then AfterWrite(b, i, |s.sinks|) else Idle;
    s.(sinks := s.sinks[i := sink.(log := sink.log + Stored(b, result))], phase := phase)
  }

  /** One try of cdc_commit for the acknowledged batch. */
  function CommitTried(s: System, reply: CommitResult): System
    requires s.phase.Acked?
  {
    var moved := reply.Committed? || reply.applied;
    s.(cursor := if moved then s.phase.batch.end else s.cursor,
       phase := if reply.Committed? then Idle else s.phase)
  }

  function Listened(s: System, consumer: string, rows: seq<Row>): System {
    s.(phase := if rows == [] then Idle else Delivering(BuildBatch(consumer, rows), 0))
  }

  ghost function Next(feed: seq<Event>, consumer: string, s: System, a: Action): Option<System> {
    match a
    case Advance(head) => if s.head <= head then Some(s.(head := head)) else None
    case Listen(_, e, rows) =>
      if s.phase.Idle? && s.sinks != [] && s.cursor <= e <= s.head && IsReply(feed, s.cursor, e, rows)
      then Some(Listened(s, consumer, rows)) else None
    case Deliver(result) =>
      if s.phase.Delivering? && s.phase.next < |s.sinks| then Some(Delivered(s, result)) else None
    case CdcCommit(reply) => if s.phase.Acked? then Some(CommitTried(s, reply)) else None
    case Leave => Some(s.(phase := Idle))
  }

  ghost function Steps(feed: seq<Event>, consumer: string): (System, Action) -> Option<System> {
    (s, a) => Next(feed, consumer, s, a)
  }

  ghost function Run(feed: seq<Event>, consumer: string, s: System, actions: seq<Action>): Option<System> {
    Runs.Run(Steps(feed, consumer), s, actions)
  }

  // ------------------------------------------------------------------ the invariant

  ghost predicate Includes(have: seq<Event>, rows: seq<Event>) { forall e :: e in rows ==> e in have }

  ghost predicate Continues(feed: seq<Event>, s: System, b: Batch) {
    s.cursor < b.end <= s.head && b.events == Between(feed, s.cursor, b.end)
  }

  /** Commits that moved the cursor although they raised leave the batch behind the cursor. */
  ghost predicate Settled(s: System, b: Batch) { s.cursor == b.end }

  /** The cursor is inside the feed, and the batch in hand continues it. */
  ghost predicate Situated(feed: seq<Event>, start: int, s: System) {
    && start <= s.cursor <= s.head
    && match s.phase
       case Idle => true
       case Delivering(b, n) => Continues(feed, s, b) && n < |s.sinks|
       case Acked(b) => (Continues(feed, s, b) || Settled(s, b)) && b.end <= s.head
  }

  /** Rows credited to sink i reach the cursor, and the batch's end once the sink is done with the batch. */
  ghost predicate Gated(feed: seq<Event>, start: int, s: System, i: nat, have: seq<Event>) {
    && Includes(have, Between(feed, start, s.cursor))
    && match s.phase
       case Idle => true
       case Delivering(b, n) => i < n ==> Includes(have, b.events)
       case Acked(b) => Includes(have, b.events)
  }

  ghost predicate Invariant(feed: seq<Event>, start: int, s: System) {
    && Situated(feed, start, s)
    && (forall i :: 0 <= i < |s.sinks| && s.sinks[i].required ==> Gated(feed, start, s, i, s.sinks[i].log))
    && (forall i :: 0 <= i < |s.sinks| ==> Includes(Between(feed, start, s.head), s.sinks[i].log))
  }

  /** The action is sink i's acknowledgement of the batch. */
  predicate Acknowledges(s: System, a: Action, i: nat) {
    s.phase.Delivering? && s.phase.next == i && a == Deliver(Accepted)
  }

  lemma StepKeepsSituation(feed: seq<Event>, consumer: string, start: int, s: System, a: Action)
    requires Ordered(feed) && Situated(feed, start, s) && Next(feed, consumer, s, a).Some?
    ensures Situated(feed, start, Next(feed, consumer, s, a).value)
    ensures s.cursor <= Next(feed, consumer, s, a).value.cursor && s.head <= Next(feed, consumer, s, a).value.head
  {
    if a.Listen? && a.rows != [] {
      CommitBoundary(consumer, feed, s.cursor, a.e, a.rows);
    }
  }

  /**
   A nack blocks the commit.  The rows credited to a required sink keep reaching the cursor when only an
   acknowledgement by that very sink is credited.
   */
  lemma StepKeepsGate(feed: seq<Event>, consumer: string, start: int, s: System, a: Action, i: nat,
                      have: seq<Event>, have': seq<Event>)
    requires Ordered(feed) && Situated(feed, start, s) && Next(feed, consumer, s, a).Some?
    requires i < |s.sinks| && s.sinks[i].required && Gated(feed, start, s, i, have)
    requires Includes(have', have) && (Acknowledges(s, a, i) ==> Includes(have', s.phase.batch.events))
    ensures Gated(feed, start, Next(feed, consumer, s, a).value, i, have')
  {
    if a.CdcCommit? && Continues(feed, s, s.phase.batch) {
      BetweenSplits(feed, start, s.cursor, s.phase.batch.end);
    }
  }

  lemma {:induction false} PickedMembers(events: seq<Event>, positions: seq<nat>)
    ensures forall e :: e in Picked(events, positions)
                        <==> exists k :: 0 <= k < |events| && k in positions && events[k] == e
  {
    if positions != [] {
      PickedMembers(events, positions[1..]);
      assert forall k :: k in positions <==> k == positions[0] || k in positions[1..];
    }
  }

  /** Whatever a write stores comes from the batch. */
  lemma StoredIncluded(b: Batch, result: WriteResult)
    ensures Includes(b.events, Stored(b, result))
  {
    if result.Refused? {
      PickedMembers(b.events, result.stored);
    }
  }

  /** No sink is ever given a row that the producer has not committed, or one from before the start. */
  lemma StepKeepsLogs(feed: seq<Event>, consumer: string, start: int, s: System, a: Action, i: nat)
    requires Ordered(feed) && Situated(feed, start, s) && Next(feed, consumer, s, a).Some?
    requires i < |s.sinks| && Includes(Between(feed, start, s.head), s.sinks[i].log)
    ensures var s' := Next(feed, consumer, s, a).value;
            |s'.sinks| == |s.sinks| && Includes(Between(feed, start, s'.head), s'.sinks[i].log)
  {
    if a.Advance? {
      BetweenSplits(feed, start, s.head, a.head);
    } else if a.Deliver? {
      var b := s.phase.batch;
      StoredIncluded(b, a.result);
      BetweenSplits(feed, start, s.cursor, s.head);
      BetweenSplits(feed, s.cursor, b.end, s.head);
    }
  }

  lemma StepKeepsInvariant(feed: seq<Event>, consumer: string, start: int, s: System, a: Action)
    requires Ordered(feed) && Invariant(feed, start, s) && Next(feed, consumer, s, a).Some?
    ensures Invariant(feed, start, Next(feed, consumer, s, a).value)
    ensures s.cursor <= Next(feed, consumer, s, a).value.cursor
  {
    var s' := Next(feed, consumer, s, a).value;
    StepKeepsSituation(feed, consumer, start, s, a);
    forall i: nat | i < |s.sinks|
      ensures |s'.sinks| == |s.sinks| && Includes(Between(feed, start, s'.head), s'.sinks[i].log)
    {
      StepKeepsLogs(feed, consumer, start, s, a, i);
    }
    forall i: nat | i < |s.sinks| && s.sinks[i].required
      ensures |s'.sinks| == |s.sinks| && Gated(feed, start, s', i, s'.sinks[i].log)
    {
      StepKeepsGate(feed, consumer, start, s, a, i, s.sinks[i].log, s'.sinks[i].log);
    }
  }

  lemma {:induction false} RunKeepsInvariant(
    feed: seq<Event>, consumer: string, start: int, s: System, actions: seq<Action>)
    requires Ordered(feed) && Invariant(feed, start, s) && Run(feed, consumer, s, actions).Some?
    ensures Invariant(feed, start, Run(feed, consumer, s, actions).value)
    ensures s.cursor <= Run(feed, consumer, s, actions).value.cursor
    decreases actions
  {
    if actions != [] {
      StepKeepsInvariant(feed, consumer, start, s, actions[0]);
      RunKeepsInvariant(feed, consumer, start, Next(feed, consumer, s, actions[0]).value, actions[1..]);
    }
  }

  lemma {:induction false} SinksStay(feed: seq<Event>, consumer: string, s: System, actions: seq<Action>)
    requires Run(feed, consumer, s, actions).Some?
    ensures var s' := Run(feed, consumer, s, actions).value;
            && |s'.sinks| == |s.sinks|
            && forall i :: 0 <= i < |s.sinks| ==>
                 s'.sinks[i].required == s.sinks[i].required && s.sinks[i].log <= s'.sinks[i].log
    decreases actions
  {
    if actions != [] {
      SinksStay(feed, consumer, Next(feed, consumer, s, actions[0]).value, actions[1..]);
    }
  }

  function Fresh(start: int, head: int, required: seq<bool>): System {
    System(head, start, seq(|required|, i requires 0 <= i < |required| => Sink(required[i], [])), Idle)
  }

  lemma FreshInvariant(feed: seq<Event>, start: int, head: int, required: seq<bool>)
    requires Ordered(feed) && start <= head
    ensures Invariant(feed, start, Fresh(start, head, required))
  {
    BetweenIsSlice(feed, start, start);
  }

  // ------------------------------------------------------------------ at least once

  /** The rows of the batches that sink i acknowledged along a run: those whose write it accepted. */
  ghost function Acknowledged(feed: seq<Event>, consumer: string, s: System, actions: seq<Action>, i: nat)
    : seq<Event>
    decreases actions
  {
    if actions == [] || Next(feed, consumer, s, actions[0]).None? then []
    else
      (if Acknowledges(s, actions[0], i) then s.phase.batch.events else [])
      + Acknowledged(feed, consumer, Next(feed, consumer, s, actions[0]).value, actions[1..], i)
  }

  lemma {:induction false} RunKeepsGate(feed: seq<Event>, consumer: string, start: int, s: System,
                                        actions: seq<Action>, i: nat, have: seq<Event>)
    requires Ordered(feed) && Situated(feed, start, s) && Run(feed, consumer, s, actions).Some?
    requires i < |s.sinks| && s.sinks[i].required && Gated(feed, start, s, i, have)
    ensures Gated(feed, start, Run(feed, consumer, s, actions).value, i,
                  have + Acknowledged(feed, consumer, s, actions, i))
    decreases actions
  {
    if actions == [] {
      assert have + Acknowledged(feed, consumer, s, actions, i) == have;
    } else {
      var s', rest := Next(feed, consumer, s, actions[0]).value, actions[1..];
      var now := if Acknowledges(s, actions[0], i) then s.phase.batch.events else [];
      StepKeepsSituation(feed, consumer, start, s, actions[0]);
      StepKeepsGate(feed, consumer, start, s, actions[0], i, have, have + now);
      RunKeepsGate(feed, consumer, start, s', rest, i, have + now);
      var more := Acknowledged(feed, consumer, s', rest, i);
      assert have + now + more == have + (now + more);
    }
  }

  lemma {:induction false} AcknowledgedIsStored(
    feed: seq<Event>, consumer: string, s: System, actions: seq<Action>, i: nat)
    requires Run(feed, consumer, s, actions).Some? && i < |s.sinks|
    ensures var s' := Run(feed, consumer, s, actions).value;
            |s'.sinks| == |s.sinks| && Includes(s'.sinks[i].log, Acknowledged(feed, consumer, s, actions, i))
    decreases actions
  {
    if actions != [] {
      var s', rest := Next(feed, consumer, s, actions[0]).value, actions[1..];
      AcknowledgedIsStored(feed, consumer, s', rest, i);
      SinksStay(feed, consumer, s', rest);
      assert Acknowledges(s, actions[0], i) ==> Includes(s'.sinks[i].log, s.phase.batch.events);
    }
  }

  /**
   At least once: a required sink gates the cursor by acknowledging.  In every reachable state, every feed row
   from the start position through the cursor belongs to a batch whose write that sink accepted, and is in
   what the sink stored, whatever failed on the way.
   */
  lemma RequiredSinksGate(feed: seq<Event>, consumer: string, start: int, head: int, required: seq<bool>,
                          actions: seq<Action>, i: nat)
    requires Ordered(feed) && start <= head && i < |required| && required[i]
    requires Run(feed, consumer, Fresh(start, head, required), actions).Some?
    ensures var s := Run(feed, consumer, Fresh(start, head, required), actions).value;
            var acknowledged := Acknowledged(feed, consumer, Fresh(start, head, required), actions, i);
            && start <= s.cursor <= s.head
            && |s.sinks| == |required|
            && (forall e :: e in Between(feed, start, s.cursor) ==> e in acknowledged && e in s.sinks[i].log)
  {
    var s0 := Fresh(start, head, required);
    FreshInvariant(feed, start, head, required);
    RunKeepsInvariant(feed, consumer, start, s0, actions);
    RunKeepsGate(feed, consumer, start, s0, actions, i, []);
    AcknowledgedIsStored(feed, consumer, s0, actions, i);
    assert [] + Acknowledged(feed, consumer, s0, actions, i) == Acknowledged(feed, consumer, s0, actions, i);
  }

  // ------------------------------------------------------------------ convergence of a keyed sink

  /** A sink keyed by row identity: every write is an upsert. */
  function Upserted(log: seq<Event>): map<Identity, Event> {
    if log == [] then map[]
    else
      var last := log[|log| - 1];
      Upserted(log[..|log| - 1])[Key(last) := last]
  }

  /** Over rows of a feed with distinct keys, the map depends only on which rows were written. */
  lemma {:induction false} UpsertedMembers(feed: seq<Event>, log: seq<Event>)
    requires DistinctKeys(feed) && forall e :: e in log ==> e in feed
    ensures forall e :: e in feed ==>
              (Key(e) in Upserted(log) <==> e in log) && (e in log ==> Upserted(log)[Key(e)] == e)
    ensures forall k :: k in Upserted(log) ==> exists e :: e in log && Key(e) == k
  {
    if log != [] {
      var init, last := log[..|log| - 1], log[|log| - 1];
      assert forall e :: e in log <==> e in init || e == last;
      UpsertedMembers(feed, init);
      forall e | e in feed && Key(e) == Key(last) ensures e == last {
        var i :| 0 <= i < |feed| && feed[i] == e;
        var j :| 0 <= j < |feed| && feed[j] == last;
      }
    }
  }

  lemma SameRowsSameMap(feed: seq<Event>, log: seq<Event>, log': seq<Event>)
    requires DistinctKeys(feed) && (forall e :: e in log <==> e in log') && forall e :: e in log ==> e in feed
    ensures Upserted(log) == Upserted(log')
  {
    UpsertedMembers(feed, log);
    UpsertedMembers(feed, log');
    forall k ensures k in Upserted(log) <==> k in Upserted(log') {
      if k in Upserted(log) {
        var e :| e in log && Key(e) == k;
      }
      if k in Upserted(log') {
        var e :| e in log' && Key(e) == k;
      }
    }
    forall k | k in Upserted(log) ensures Upserted(log)[k] == Upserted(log')[k] {
      var e :| e in log && Key(e) == k;
    }
  }

  /**
   Replay convergence.  In every reachable state, folding a required sink's whole log, with its repeats and
   its partial writes, gives the feed through the cursor plus rows of the feed between the cursor and the
   head: those delivered and not yet committed.
   */
  lemma ReplayConverges(feed: seq<Event>, consumer: string, start: int, head: int, required: seq<bool>,
                        actions: seq<Action>, i: nat)
    requires Ordered(feed) && DistinctKeys(feed) && start <= head && i < |required| && required[i]
    requires Run(feed, consumer, Fresh(start, head, required), actions).Some?
    ensures var s := Run(feed, consumer, Fresh(start, head, required), actions).value;
            && |s.sinks| == |required|
            && var uncommitted := Between(s.sinks[i].log, s.cursor, s.head);
               && Includes(Between(feed, s.cursor, s.head), uncommitted)
               && Upserted(s.sinks[i].log) == Upserted(Between(feed, start, s.cursor) + uncommitted)
  {
    var s0 := Fresh(start, head, required);
    FreshInvariant(feed, start, head, required);
    RunKeepsInvariant(feed, consumer, start, s0, actions);
    SinksStay(feed, consumer, s0, actions);
    var s := Run(feed, consumer, s0, actions).value;
    LogSplits(feed, start, s, i);
    SameRowsSameMap(feed, s.sinks[i].log,
                    Between(feed, start, s.cursor) + Between(s.sinks[i].log, s.cursor, s.head));
  }

  /** A required sink's log has the rows of the feed through the cursor, and some of those above it. */
  lemma LogSplits(feed: seq<Event>, start: int, s: System, i: nat)
    requires Invariant(feed, start, s) && i < |s.sinks| && s.sinks[i].required
    ensures var log := s.sinks[i].log;
            var uncommitted := Between(log, s.cursor, s.head);
            && Includes(Between(feed, s.cursor, s.head), uncommitted)
            && (forall e :: e in log ==> e in feed)
            && (forall e :: e in log <==> e in Between(feed, start, s.cursor) + uncommitted)
  {
    BetweenMembers(feed, start, s.cursor);
    BetweenMembers(feed, start, s.head);
    BetweenMembers(feed, s.cursor, s.head);
    BetweenMembers(s.sinks[i].log, s.cursor, s.head);
    assert Gated(feed, start, s, i, s.sinks[i].log);
  }

  /** Once the cursor has reached the head, the folded sink is what a run without any failure leaves. */
  lemma CaughtUpEqualsCleanRun(feed: seq<Event>, consumer: string, start: int, head: int,
                               required: seq<bool>, actions: seq<Action>, i: nat)
    requires Ordered(feed) && DistinctKeys(feed) && start <= head && i < |required| && required[i]
    requires Run(feed, consumer, Fresh(start, head, required), actions).Some?
    requires var s := Run(feed, consumer, Fresh(start, head, required), actions).value;
             Between(feed, s.cursor, s.head) == []
    ensures var s := Run(feed, consumer, Fresh(start, head, required), actions).value;
            |s.sinks| == |required| && Upserted(s.sinks[i].log) == Upserted(Between(feed, start, s.head))
  {
    ReplayConverges(feed, consumer, start, head, required, actions, i);
    RequiredSinksGate(feed, consumer, start, head, required, actions, i);
    var s := Run(feed, consumer, Fresh(start, head, required), actions).value;
    BetweenSplits(feed, start, s.cursor, s.head);
    BetweenMembers(s.sinks[i].log, s.cursor, s.head);
    NothingBetween(s.sinks[i].log, s.cursor, s.head);
    assert Between(feed, start, s.cursor) + [] == Between(feed, start, s.head);
  }

  // ------------------------------------------------------------------ sinks that store in order

  /** The write stored a first part of the batch: with each row, every row before it. */
  ghost predicate FirstPart(result: WriteResult) {
    result.Refused? ==> forall j, k: nat :: j in result.stored && k < j ==> k in result.stored
  }

  ghost predicate StoresInOrder(actions: seq<Action>) {
    forall k :: 0 <= k < |actions| && actions[k].Deliver? ==> FirstPart(actions[k].result)
  }

  /** The sink was given exactly the rows of the feed from position a up to position p, each at least once. */
  ghost predicate Covers(feed: seq<Event>, log: seq<Event>, a: nat, p: nat) {
    a <= p <= |feed| && forall e :: e in log <==> e in feed[a..p]
  }

  /** The rows of the log are one contiguous stretch of the feed. */
  ghost predicate Contiguous(feed: seq<Event>, log: seq<Event>, a: nat, limit: nat) {
    exists p :: a <= p <= limit && Covers(feed, log, a, p)
  }

  /** A first part of the batch has the rows below some position. */
  lemma FirstPartEnds(b: Batch, result: WriteResult) returns (n: nat)
    requires FirstPart(result)
    ensures n <= |b.events| && forall e :: e in Stored(b, result) <==> e in b.events[..n]
  {
    n := |b.events|;
    if result.Refused? {
      PickedMembers(b.events, result.stored);
      n := 0;
      while n < |b.events| && n in result.stored
        invariant n <= |b.events| && forall k :: 0 <= k < n ==> k in result.stored
      {
        n := n + 1;
      }
      forall k | 0 <= k < |b.events| ensures k in result.stored <==> k < n {
        assert n < |b.events| ==> n !in result.stored;
      }
    }
  }

  function Further(p: nat, r: nat): nat { if r <= p then p else r }

  /** A stretch that has every row up to q, with rows from q on, is a stretch. */
  lemma CoversGrows(feed: seq<Event>, log: seq<Event>, more: seq<Event>, a: nat, p: nat, q: nat, r: nat)
    requires Covers(feed, log, a, p) && a <= q <= r <= |feed|
    requires Includes(log, feed[a..q]) && forall e :: e in more <==> e in feed[q..r]
    ensures Covers(feed, log + more, a, Further(p, r))
  {
    assert feed[a..Further(p, r)] == if r <= p then feed[a..p] else feed[a..q] + feed[q..r];
    if q <= r <= p {
      assert feed[a..p] == feed[a..q] + feed[q..r] + feed[r..p];
    } else if p <= q {
      assert feed[a..q] == feed[a..p] + feed[p..q];
    } else {
      assert feed[a..r] == feed[a..p] + feed[p..r] && feed[q..r] == feed[q..p] + feed[p..r];
    }
  }

  lemma StepKeepsContiguous(feed: seq<Event>, consumer: string, start: int, s: System, a: Action, i: nat)
    requires Ordered(feed) && Invariant(feed, start, s) && Next(feed, consumer, s, a).Some?
    requires i < |s.sinks| && s.sinks[i].required
    requires Contiguous(feed, s.sinks[i].log, Upto(feed, start), Upto(feed, s.head))
    requires a.Deliver? ==> FirstPart(a.result)
    ensures var s' := Next(feed, consumer, s, a).value;
            && |s'.sinks| == |s.sinks|
            && Contiguous(feed, s'.sinks[i].log, Upto(feed, start), Upto(feed, s'.head))
  {
    if a.Advance? {
      UptoMonotone(feed, s.head, a.head);
    } else if a.Deliver? && s.phase.next == i {
      WriteKeepsContiguous(feed, start, s, i, a.result);
    }
  }

  lemma SliceOfSlice(feed: seq<Event>, q: nat, u: nat, n: nat)
    requires q + n <= u <= |feed|
    ensures feed[q..u][..n] == feed[q..q + n]
  {
  }

  lemma WriteKeepsContiguous(feed: seq<Event>, start: int, s: System, i: nat, result: WriteResult)
    requires Ordered(feed) && Invariant(feed, start, s) && s.phase.Delivering? && FirstPart(result)
    requires i < |s.sinks| && s.sinks[i].required
    requires Contiguous(feed, s.sinks[i].log, Upto(feed, start), Upto(feed, s.head))
    ensures Contiguous(feed, s.sinks[i].log + Stored(s.phase.batch, result), Upto(feed, start), Upto(feed, s.head))
  {
    var b, log := s.phase.batch, s.sinks[i].log;
    var a, q, u, limit := Upto(feed, start), Upto(feed, s.cursor), Upto(feed, b.end), Upto(feed, s.head);
    UptoMonotone(feed, b.end, s.head);
    BetweenIsSlice(feed, start, s.cursor);
    BetweenIsSlice(feed, s.cursor, b.end);
    assert Gated(feed, start, s, i, log);
    var p :| a <= p <= limit && Covers(feed, log, a, p);
    var n := FirstPartEnds(b, result);
    SliceOfSlice(feed, q, u, n);
    CoversGrows(feed, log, Stored(b, result), a, p, q, q + n);
  }

  lemma {:induction false} RunKeepsContiguous(
    feed: seq<Event>, consumer: string, start: int, s: System, actions: seq<Action>, i: nat)
    requires Ordered(feed) && Invariant(feed, start, s) && Run(feed, consumer, s, actions).Some?
    requires i < |s.sinks| && s.sinks[i].required && StoresInOrder(actions)
    requires Contiguous(feed, s.sinks[i].log, Upto(feed, start), Upto(feed, s.head))
    ensures var s' := Run(feed, consumer, s, actions).value;
            && |s'.sinks| == |s.sinks|
            && Contiguous(feed, s'.sinks[i].log, Upto(feed, start), Upto(feed, s'.head))
    decreases actions
  {
    if actions != [] {
      var s' := Next(feed, consumer, s, actions[0]).value;
      StepKeepsInvariant(feed, consumer, start, s, actions[0]);
      StepKeepsContiguous(feed, consumer, start, s, actions[0], i);
      assert forall k :: 0 <= k < |actions[1..]| ==> actions[1..][k] == actions[k + 1];
      RunKeepsContiguous(feed, consumer, start, s', actions[1..], i);
    }
  }

  /**
   When every refused write stored a first part of its batch, the rows delivered and not committed are one
   contiguous stretch that starts right after the cursor.
   */
  lemma OrderedReplayIsContiguous(feed: seq<Event>, consumer: string, start: int, head: int, required: seq<bool>,
                                  actions: seq<Action>, i: nat)
    returns (p: nat)
    requires Ordered(feed) && DistinctKeys(feed) && start <= head && i < |required| && required[i]
    requires Run(feed, consumer, Fresh(start, head, required), actions).Some? && StoresInOrder(actions)
    ensures var s := Run(feed, consumer, Fresh(start, head, required), actions).value;
            && |s.sinks| == |required|
            && Upto(feed, start) <= Upto(feed, s.cursor) <= p <= Upto(feed, s.head)
            && Upserted(s.sinks[i].log)
               == Upserted(Between(feed, start, s.cursor) + feed[Upto(feed, s.cursor)..p])
  {
    var s0 := Fresh(start, head, required);
    FreshInvariant(feed, start, head, required);
    UptoMonotone(feed, start, head);
    assert Covers(feed, [], Upto(feed, start), Upto(feed, start));
    RunKeepsContiguous(feed, consumer, start, s0, actions, i);
    RunKeepsInvariant(feed, consumer, start, s0, actions);
    SinksStay(feed, consumer, s0, actions);
    var s := Run(feed, consumer, s0, actions).value;
    p := StretchFromCursor(feed, start, s, i);
    SameRowsSameMap(feed, s.sinks[i].log, feed[Upto(feed, start)..p]);
  }

  lemma StretchFromCursor(feed: seq<Event>, start: int, s: System, i: nat) returns (p: nat)
    requires Ordered(feed) && Invariant(feed, start, s) && i < |s.sinks| && s.sinks[i].required
    requires Contiguous(feed, s.sinks[i].log, Upto(feed, start), Upto(feed, s.head))
    ensures var a, q := Upto(feed, start), Upto(feed, s.cursor);
            && a <= q <= p <= Upto(feed, s.head)
            && Covers(feed, s.sinks[i].log, a, p)
            && Between(feed, start, s.cursor) + feed[q..p] == feed[a..p]
  {
    var a, q, log := Upto(feed, start), Upto(feed, s.cursor), s.sinks[i].log;
    UptoMonotone(feed, s.cursor, s.head);
    BetweenIsSlice(feed, start, s.cursor);
    assert Gated(feed, start, s, i, log);
    var p0 :| a <= p0 <= Upto(feed, s.head) && Covers(feed, log, a, p0);
    CoversGrows(feed, log, [], a, p0, q, q);
    assert log + [] == log;
    p := Further(p0, q);
  }

  // ------------------------------------------------------------------ recovery

  /** n accepting sinks. */
  function Acceptances(n: nat): seq<Action> {
    if n == 0 then [] else [Deliver(Accepted)] + Acceptances(n - 1)
  }

  lemma {:induction false} AcceptancesAck(feed: seq<Event>, consumer: string, s: System)
    requires s.phase.Delivering? && s.phase.next < |s.sinks|
    ensures var r := Run(feed, consumer, s, Acceptances(|s.sinks| - s.phase.next));
            && r.Some? && r.value.phase == Acked(s.phase.batch)
            && r.value.cursor == s.cursor && r.value.head == s.head
    decreases |s.sinks| - s.phase.next
  {
    var s' := Delivered(s, Accepted);
    var rest := Acceptances(|s.sinks| - s.phase.next - 1);
    assert Acceptances(|s.sinks| - s.phase.next) == [Deliver(Accepted)] + rest;
    Runs.Cons(Steps(feed, consumer), s, Deliver(Accepted), rest);
    if s'.phase.Delivering? {
      AcceptancesAck(feed, consumer, s');
    }
  }

  /** A restart and one round in which nothing fails, over everything the producer has committed. */
  function Recovery(feed: seq<Event>, consumer: string, s: System): seq<Action> {
    var rows := Batches.Reply(feed, s.cursor, s.head, []);
    [Leave] + ([Listen(s.head - s.cursor, s.head, rows)]
               + if rows == [] then [] else Acceptances(|s.sinks|) + [CdcCommit(Committed)])
  }

  /** From a listened batch on, accepting sinks and a returned cdc_commit put the cursor at its end. */
  lemma CleanDelivery(feed: seq<Event>, consumer: string, s: System, b: Batch)
    requires s.phase == Delivering(b, 0) && s.sinks != []
    ensures var r := Run(feed, consumer, s, Acceptances(|s.sinks|) + [CdcCommit(Committed)]);
            r.Some? && r.value.head == s.head && r.value.cursor == b.end
  {
    AcceptancesAck(feed, consumer, s);
    var acked := Run(feed, consumer, s, Acceptances(|s.sinks|)).value;
    Runs.Concat(Steps(feed, consumer), s, Acceptances(|s.sinks|), [CdcCommit(Committed)]);
    Runs.Cons(Steps(feed, consumer), acked, CdcCommit(Committed), []);
  }

  lemma RecoveryCommits(feed: seq<Event>, consumer: string, start: int, s: System)
    requires Ordered(feed) && Invariant(feed, start, s) && s.sinks != []
    ensures var r := Run(feed, consumer, s, Recovery(feed, consumer, s));
            r.Some? && r.value.head == s.head && Between(feed, r.value.cursor, s.head) == []
  {
    var rows := Batches.Reply(feed, s.cursor, s.head, []);
    if rows == [] {
      var idle := s.(phase := Idle);
      Runs.Cons(Steps(feed, consumer), s, Leave, [Listen(s.head - s.cursor, s.head, rows)] + []);
      Runs.Cons(Steps(feed, consumer), idle, Listen(s.head - s.cursor, s.head, rows), []);
      assert |Events(rows)| == 0;
    } else {
      RecoveryDelivers(feed, consumer, s, rows);
    }
  }

  /** The round of the recovery that has something to deliver. */
  lemma RecoveryDelivers(feed: seq<Event>, consumer: string, s: System, rows: seq<Row>)
    requires Ordered(feed) && s.cursor <= s.head && s.sinks != []
    requires rows != [] && IsReply(feed, s.cursor, s.head, rows)
    ensures var rest := Acceptances(|s.sinks|) + [CdcCommit(Committed)];
            var r := Run(feed, consumer, s, [Leave] + ([Listen(s.head - s.cursor, s.head, rows)] + rest));
            r.Some? && r.value.head == s.head && Between(feed, r.value.cursor, s.head) == []
  {
    var b, idle := BuildBatch(consumer, rows), s.(phase := Idle);
    var rest := Acceptances(|s.sinks|) + [CdcCommit(Committed)];
    CommitBoundary(consumer, feed, s.cursor, s.head, rows);
    Runs.Cons(Steps(feed, consumer), s, Leave, [Listen(s.head - s.cursor, s.head, rows)] + rest);
    Runs.Cons(Steps(feed, consumer), idle, Listen(s.head - s.cursor, s.head, rows), rest);
    CleanDelivery(feed, consumer, Listened(idle, consumer, rows), b);
    BetweenSplits(feed, s.cursor, b.end, s.head);
    assert |b.events| == |Between(feed, s.cursor, s.head)|;
  }

  /**
   One later success is enough: after any run, a restart and one clean round leave every required sink,
   folded by key, exactly as a run without any failure leaves it.
   */
  lemma RecoveryEqualsCleanRun(feed: seq<Event>, consumer: string, start: int, head: int, required: seq<bool>,
                               actions: seq<Action>, i: nat)
    requires Ordered(feed) && DistinctKeys(feed) && start <= head && i < |required| && required[i]
    requires Run(feed, consumer, Fresh(start, head, required), actions).Some?
    ensures var s := Run(feed, consumer, Fresh(start, head, required), actions).value;
            var r := Run(feed, consumer, s, Recovery(feed, consumer, s));
            && r.Some? && |r.value.sinks| == |required|
            && Upserted(r.value.sinks[i].log) == Upserted(Between(feed, start, s.head))
  {
    var s0 := Fresh(start, head, required);
    var s := Run(feed, consumer, s0, actions).value;
    var more := Recovery(feed, consumer, s);
    FreshInvariant(feed, start, head, required);
    RunKeepsInvariant(feed, consumer, start, s0, actions);
    SinksStay(feed, consumer, s0, actions);
    RecoveryCommits(feed, consumer, start, s);
    Runs.Concat(Steps(feed, consumer), s0, actions, more);
    CaughtUpEqualsCleanRun(feed, consumer, start, head, required, actions + more, i);
  }

  // ------------------------------------------------------------------ optional sinks do not interfere

  /** Equal except for what optional sinks stored. */
  ghost predicate Alike(s: System, t: System) {
    && s.head == t.head && s.cursor == t.cursor && s.phase == t.phase
    && |s.sinks| == |t.sinks|
    && forall i :: 0 <= i < |s.sinks| ==>
         s.sinks[i].required == t.sinks[i].required && (s.sinks[i].required ==> s.sinks[i] == t.sinks[i])
  }

  /** The same action, with an optional sink's refusal (by an Exception) replaced by acceptance. */
  function Healed(s: System, a: Action): Action {
    if a.Deliver? && s.phase.Delivering? && s.phase.next < |s.sinks|
       && !s.sinks[s.phase.next].required && Passes(false, a.result)
    then Deliver(Accepted)
    else a
  }

  ghost function HealedAll(feed: seq<Event>, consumer: string, s: System, actions: seq<Action>): seq<Action>
    decreases actions
  {
    if actions == [] || Next(feed, consumer, s, actions[0]).None? then actions
    else [Healed(s, actions[0])]
         + HealedAll(feed, consumer, Next(feed, consumer, s, actions[0]).value, actions[1..])
  }

  /**
   Optional sinks never block or reorder anything: replacing all their failures by successes yields a run
   with the same cursor, the same phase and the same required-sink logs.
   */
  lemma {:induction false} OptionalSinksDoNotInterfere(
    feed: seq<Event>, consumer: string, s: System, t: System, actions: seq<Action>)
    requires Alike(s, t) && Run(feed, consumer, s, actions).Some?
    ensures var r := Run(feed, consumer, t, HealedAll(feed, consumer, s, actions));
            r.Some? && Alike(Run(feed, consumer, s, actions).value, r.value)
    decreases actions
  {
    if actions != [] {
      var s', a := Next(feed, consumer, s, actions[0]).value, Healed(s, actions[0]);
      var t' := Next(feed, consumer, t, a);
      assert t'.Some? && Alike(s', t'.value);
      OptionalSinksDoNotInterfere(feed, consumer, s', t'.value, actions[1..]);
      var healed := HealedAll(feed, consumer, s, actions);
      assert healed[0] == a && healed[1..] == HealedAll(feed, consumer, s', actions[1..]);
    }
  }
}
