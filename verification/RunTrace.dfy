/** run() poll by poll: what its listens ask for, when it raises, and what a normal return leaves behind. */
module RunTrace {
  import opened Prelude
  import opened Feed
  import opened Batches
  import opened Retry
  import opened Delivery
  import opened Runner
  import Loop
  import Runs
  import Window

  // ------------------------------------------------------------------ the listens of run()

  function Listens(log: seq<Action>): seq<Action> {
    if log == [] then []
    else Listens(log[..|log| - 1]) + if log[|log| - 1].Listen? then [log[|log| - 1]] else []
  }

  lemma {:induction false} ListensConcat(log: seq<Action>, more: seq<Action>)
    ensures Listens(log + more) == Listens(log) + Listens(more)
  {
    if more == [] {
      assert log + more == log;
    } else {
      ListensConcat(log, more[..|more| - 1]);
      assert (log + more)[..|log + more| - 1] == log + more[..|more| - 1];
    }
  }

  /** The listens made between two sessions. */
  ghost predicate Listened(before: Session, after: Session, listens: seq<Action>) {
    before.log <= after.log && Listens(Runs.Since(before, after)) == listens
  }

  lemma ListenedTrans(a: Session, b: Session, c: Session, first: seq<Action>, second: seq<Action>)
    requires Listened(a, b, first) && Listened(b, c, second)
    ensures Listened(a, c, first + second)
  {
    ListensConcat(Runs.Since(a, b), Runs.Since(b, c));
    assert Runs.Since(a, c) == Runs.Since(a, b) + Runs.Since(b, c);
  }

  lemma ListenedOne(a: Session, action: Action, b: Session)
    requires b.log == a.log + [action]
    ensures Listened(a, b, if action.Listen? then [action] else [])
  {
    assert Runs.Since(a, b) == [action] && [action][..0] == [];
  }

  lemma ListenedSelf(a: Session)
    ensures Listened(a, a, [])
  {
    assert Runs.Since(a, a) == [];
  }

  lemma {:induction false} DeliverIsQuiet(s: Session, writes: nat -> WriteResult)
    requires s.sys.phase.Delivering? && s.sys.phase.next < |s.sys.sinks|
    ensures Listened(s, DeliverRest(s, writes).0, [])
    decreases |s.sys.sinks| - s.sys.phase.next
  {
    var result := writes(s.sys.phase.next);
    var s' := Write(s, result);
    ListenedOne(s, Deliver(result), s');
    if s'.sys.phase.Delivering? {
      DeliverIsQuiet(s', writes);
      ListenedTrans(s, s', DeliverRest(s', writes).0, [], []);
    }
  }

  lemma {:induction false} CommitIsQuiet(replies: nat -> CommitResult, s: Session, k: nat, left: nat)
    requires left >= 1
    ensures Listened(s, RetryFrom(CommitBatch(replies), s, k, left).state, [])
    decreases left
  {
    var (s', o) := CommitBatch(replies)(k, s);
    assert (s', o) == CommitOnce(replies, k, s);
    if s.sys.phase.Acked? {
      ListenedOne(s, CdcCommit(replies(k)), s');
    } else {
      ListenedSelf(s);
    }
    if !(Decisive(o) || left == 1) {
      CommitIsQuiet(replies, s', k + 1, left - 1);
      ListenedTrans(s, s', RetryFrom(CommitBatch(replies), s', k + 1, left - 1).state, [], []);
    }
  }

  lemma HandledIsQuiet(s: Session, p: RunPoll)
    requires s.sys.phase.Delivering? && s.sys.phase.next < |s.sys.sinks|
    ensures Listened(s, Handled(s, p).0, [])
  {
    var (s1, delivered) := DeliverRest(s, p.writes);
    DeliverIsQuiet(s, p.writes);
    if delivered.Returned? {
      var commit := RetryFrom(CommitBatch(p.commits), s1, 0, MAX_ATTEMPTS);
      CommitIsQuiet(p.commits, s1, 0, MAX_ATTEMPTS);
      ListenedTrans(s, s1, commit.state, [], []);
      ListenedOne(commit.state, Leave, LeftWith(commit.state));
      ListenedTrans(s, commit.state, LeftWith(commit.state), [], []);
    }
  }

  /** Polling logs one listen, for the size the loop asks for. */
  lemma PollListens(feed: seq<Event>, consumer: string, o: Loop.Options, st: Loop.State, s: Session, p: RunPoll)
    returns (listen: Action)
    requires !p.stopBefore
    ensures var s2 := AfterListen(feed, consumer, o, st, s, p);
            && Listened(s, s2, [listen])
            && listen == s2.log[|s2.log| - 1] && listen.Listen?
            && listen.requested == if o.dml then st.window else o.maxSnapshots
  {
    var s1 := Advanced(s, p);
    var s2 := AfterListen(feed, consumer, o, st, s, p);
    listen := s2.log[|s2.log| - 1];
    ListenedOne(s, s1.log[|s.log|], s1);
    ListenedOne(s1, listen, s2);
    ListenedTrans(s, s1, s2, [], [listen]);
  }

  /** A pass that got as far as its listen is that listen, and the handling of the batch if there is one. */
  lemma PassShape(feed: seq<Event>, consumer: string, o: Loop.Options, st: Loop.State, s: Session, p: RunPoll)
    requires Loop.Sound(o, st) && s.sys.sinks != [] && !p.stopBefore && p.listenFailure.None?
    ensures var r, s2 := RunPass(feed, consumer, o, st, s, p), AfterListen(feed, consumer, o, st, s, p);
            && r.Passed? && s2.sys.sinks == s.sys.sinks
            && (s2.sys.phase.Delivering? <==> r.poll.rows != [])
            && if s2.sys.phase.Delivering? then
                 s2.sys.phase.next == 0 && (r.session, r.outcome) == Handled(s2, p)
               else r.session == s2 && r.outcome == Returned(())
  {
  }

  /** A pass that listens logs that one listen, and the loop sees its rows. */
  lemma PassListens(feed: seq<Event>, consumer: string, o: Loop.Options, st: Loop.State, s: Session, p: RunPoll)
    returns (listens: seq<Action>)
    requires Loop.Sound(o, st) && s.sys.sinks != []
    ensures var r := RunPass(feed, consumer, o, st, s, p);
            && Listened(s, r.session, listens)
            && if r.Passed? && !p.stopBefore then
                 && |listens| == 1 && listens[0].Listen?
                 && listens[0].requested == (if o.dml then st.window else o.maxSnapshots)
                 && listens[0].rows == r.poll.rows
                 && var log := AfterListen(feed, consumer, o, st, s, p).log; listens[0] == log[|log| - 1]
               else listens == []
  {
    listens := [];
    if !p.stopBefore && p.listenFailure.None? {
      var s2 := AfterListen(feed, consumer, o, st, s, p);
      var listen := PollListens(feed, consumer, o, st, s, p);
      listens := [listen];
      PassShape(feed, consumer, o, st, s, p);
      if s2.sys.phase.Delivering? {
        HandledIsQuiet(s2, p);
        ListenedTrans(s, s2, Handled(s2, p).0, [listen], []);
      }
    } else {
      ListenedSelf(s);
    }
  }

  /**
   The k-th listen asked for the adaptive window after everything the polls before it had shown, starting from
   x, or for the caller's size; and it returned the rows of poll k.  Only the last poll may have made no
   listen, having seen the stop event first.
   */
  ghost predicate Asked(o: Loop.Options, consumer: string, x: nat, listens: seq<Action>, seen: seq<Loop.Poll>)
    requires 1 <= x <= Window.Ceiling(o.maxSnapshots)
  {
    && |listens| <= |seen| <= |listens| + 1
    && (forall k :: 0 <= k < |listens| ==>
          && listens[k].Listen? && listens[k].rows == seen[k].rows && !seen[k].stopBefore
          && listens[k].requested
             == if o.dml then
                  Window.ObserveAll(Window.Ceiling(o.maxSnapshots), x, Loop.Observations(consumer, seen[..k]))
                else o.maxSnapshots)
    && (|listens| < |seen| ==> seen[|listens|].stopBefore)
  }

  /** The observation of one poll. */
  function Showed(consumer: string, p: Loop.Poll): Window.Observation {
    if p.rows == [] then Window.Empty else Loop.Seen(BuildBatch(consumer, p.rows), p)
  }

  lemma ObservationsCons(consumer: string, p: Loop.Poll, seen: seq<Loop.Poll>, k: nat)
    requires k <= |seen|
    ensures Loop.Observations(consumer, ([p] + seen)[..k + 1])
            == [Showed(consumer, p)] + Loop.Observations(consumer, seen[..k])
  {
    assert ([p] + seen)[..k + 1][0] == p && ([p] + seen)[..k + 1][1..] == seen[..k];
  }

  lemma ObserveAllCons(ceiling: int, x: nat, seen: Window.Observation, rest: seq<Window.Observation>)
    requires 1 <= x <= ceiling
    ensures Window.ObserveAll(ceiling, x, [seen] + rest)
            == Window.ObserveAll(ceiling, Window.Observe(ceiling, x, seen), rest)
  {
    assert ([seen] + rest)[1..] == rest;
  }

  lemma AskedCons(o: Loop.Options, consumer: string, x: nat, y: nat, listen: Action, p: Loop.Poll,
                  listens: seq<Action>, seen: seq<Loop.Poll>)
    requires 1 <= x <= Window.Ceiling(o.maxSnapshots) && 1 <= y <= Window.Ceiling(o.maxSnapshots)
    requires o.dml ==> y == Window.Observe(Window.Ceiling(o.maxSnapshots), x, Showed(consumer, p))
    requires listen.Listen? && listen.rows == p.rows && !p.stopBefore
    requires listen.requested == if o.dml then x else o.maxSnapshots
    requires Asked(o, consumer, y, listens, seen)
    ensures Asked(o, consumer, x, [listen] + listens, [p] + seen)
  {
    var ceiling, all, polls := Window.Ceiling(o.maxSnapshots), [listen] + listens, [p] + seen;
    forall k | 0 <= k < |all| && o.dml
      ensures all[k].Listen?
              && all[k].requested == Window.ObserveAll(ceiling, x, Loop.Observations(consumer, polls[..k]))
    {
      if k > 0 {
        assert all[k] == listens[k - 1];
        ObservationsCons(consumer, p, seen, k - 1);
        ObserveAllCons(ceiling, x, Showed(consumer, p), Loop.Observations(consumer, seen[..k - 1]));
      } else {
        assert polls[..0] == [];
      }
    }
  }

  lemma AskedNone(o: Loop.Options, consumer: string, x: nat, seen: seq<Loop.Poll>)
    requires 1 <= x <= Window.Ceiling(o.maxSnapshots)
    requires |seen| <= 1 && forall p :: p in seen ==> p.stopBefore
    ensures Asked(o, consumer, x, [], seen)
  {
  }

  /** What a pass that listened shows the window. */
  lemma PassMovesWindow(feed: seq<Event>, consumer: string, o: Loop.Options, st: Loop.State, s: Session, p: RunPoll)
    requires Loop.Sound(o, st) && s.sys.sinks != [] && o.dml && !p.stopBefore
    ensures var r := RunPass(feed, consumer, o, st, s, p);
            r.Passed? ==>
              r.pass.state.window
              == Window.Observe(Window.Ceiling(o.maxSnapshots), st.window, Showed(consumer, r.poll))
  {
  }

  /** One pass in front of what the rest of run() asked for. */
  lemma PassAsks(feed: seq<Event>, consumer: string, o: Loop.Options, st: Loop.State, s: Session, p: RunPoll,
                 rest: seq<Action>, seen: seq<Loop.Poll>)
    returns (first: seq<Action>)
    requires Loop.Sound(o, st) && s.sys.sinks != []
    requires var r := RunPass(feed, consumer, o, st, s, p);
             if r.Exit().Some? then rest == [] && seen == []
             else Asked(o, consumer, r.pass.state.window, rest, seen)
    ensures var r := RunPass(feed, consumer, o, st, s, p);
            && Listened(s, r.session, first)
            && Asked(o, consumer, st.window, first + rest, r.Polls() + seen)
  {
    var r := RunPass(feed, consumer, o, st, s, p);
    first := PassListens(feed, consumer, o, st, s, p);
    if first == [] {
      assert first + rest == [] && r.Polls() + seen == r.Polls();
      AskedNone(o, consumer, st.window, r.Polls());
    } else {
      if o.dml { PassMovesWindow(feed, consumer, o, st, s, p); }
      if r.Exit().Some? { AskedNone(o, consumer, r.pass.state.window, []); }
      AskedCons(o, consumer, st.window, r.pass.state.window, first[0], r.poll, rest, seen);
      assert [first[0]] == first;
    }
  }

  lemma {:induction false} RunAsks(feed: seq<Event>, consumer: string, o: Loop.Options, st: Loop.State, s: Session,
                                   polls: seq<RunPoll>)
    returns (listens: seq<Action>)
    requires Loop.Sound(o, st) && s.sys.sinks != []
    ensures var r := RunLoop(feed, consumer, o, st, s, polls);
            Listened(s, r.session, listens) && Asked(o, consumer, st.window, listens, r.polls)
    decreases polls
  {
    if polls == [] {
      listens := [];
      ListenedSelf(s);
      AskedNone(o, consumer, st.window, []);
    } else {
      var r := RunPass(feed, consumer, o, st, s, polls[0]);
      if r.Exit().Some? {
        listens := PassAsks(feed, consumer, o, st, s, polls[0], [], []);
        assert listens + [] == listens && r.Polls() + [] == r.Polls();
      } else {
        var rest := RunAsks(feed, consumer, o, r.pass.state, r.session, polls[1..]);
        var tail := RunLoop(feed, consumer, o, r.pass.state, r.session, polls[1..]);
        var first := PassAsks(feed, consumer, o, st, s, polls[0], rest, tail.polls);
        listens := first + rest;
        ListenedTrans(s, r.session, tail.session, first, rest);
      }
    }
  }

  /**
   What run() asks for, stated on the listens it logs.  For DML the k-th listen asks for the adaptive window,
   which starts at the ceiling or at 8, folded over the polls before it; for DDL always for max_snapshots.
   The polls are those of the schedule, with the rows of the listens.
   */
  lemma RunAsksForWindow(feed: seq<Event>, consumer: string, o: Loop.Options, now: int, s: Session,
                         polls: seq<RunPoll>)
    returns (listens: seq<Action>)
    requires s.sys.sinks != []
    ensures var r := RunLoop(feed, consumer, o, Loop.Start(o, now), s, polls);
            && s.log <= r.session.log && listens == Listens(r.session.log[|s.log|..])
            && Asked(o, consumer, Min(Window.Ceiling(o.maxSnapshots), 8), listens, r.polls)
            && Observes(r.polls, polls)
  {
    listens := RunAsks(feed, consumer, o, Loop.Start(o, now), s, polls);
    RunObserves(feed, consumer, o, Loop.Start(o, now), s, polls);
  }

  // ------------------------------------------------------------------ when run() returns

  /** Every poll that run() saw was made by its loop, and without an exit it saw the whole schedule. */
  lemma {:induction false} RunMakesItsPolls(
    feed: seq<Event>, consumer: string, o: Loop.Options, st: Loop.State, s: Session, polls: seq<RunPoll>)
    requires Loop.Sound(o, st) && s.sys.sinks != []
    ensures var r := RunLoop(feed, consumer, o, st, s, polls);
            && Loop.PollsMade(o, consumer, st, r.polls) == |r.polls|
            && (r.exit.None? ==> |r.polls| == |polls| && Loop.Exec(o, consumer, st, r.polls).exit.None?)
    decreases polls
  {
    if polls != [] {
      var r := RunPass(feed, consumer, o, st, s, polls[0]);
      if r.Exit().None? {
        RunMakesItsPolls(feed, consumer, o, r.pass.state, r.session, polls[1..]);
        var tail := RunLoop(feed, consumer, o, r.pass.state, r.session, polls[1..]).polls;
        assert ([r.poll] + tail)[1..] == tail;
      }
    }
  }

  /**
   run() returns exactly with the first poll that is told to end its loop, and in that way; until then it goes
   on, unless it raises.  It yields every listen that returned rows.
   */
  lemma RunReturnsExactlyWhen(feed: seq<Event>, consumer: string, o: Loop.Options, now: int, s: Session,
                              polls: seq<RunPoll>)
    requires s.sys.sinks != []
    ensures var r := RunLoop(feed, consumer, o, Loop.Start(o, now), s, polls);
            && r.yielded == Loop.Built(consumer, r.polls)
            && (r.polls != [] ==> Loop.GoesOnUntil(o, 0, now, r.polls, |r.polls| - 1))
            && match r.exit
               case None => |r.polls| == |polls| && Loop.EndsWith(o, 0, now, r.polls, |r.polls|, None)
               case Some(Finished(exit)) => Loop.EndsWith(o, 0, now, r.polls, |r.polls|, Some(exit))
               case Some(Failed(_)) => true
  {
    var st := Loop.Start(o, now);
    var r := RunLoop(feed, consumer, o, st, s, polls);
    var exit := Loop.Exec(o, consumer, st, r.polls).exit;
    RunIsTheLoop(feed, consumer, o, st, s, polls);
    RunMakesItsPolls(feed, consumer, o, st, s, polls);
    Loop.YieldsWhatItPolled(o, consumer, st, r.polls);
    assert r.polls[..|r.polls|] == r.polls;
    Loop.EndsExactlyFrom(o, consumer, st, r.polls);
    if r.polls != [] {
      Loop.EndsWithPrefix(o, 0, now, r.polls, |r.polls|, exit);
    }
  }

  /** By default run() never returns: without a stop event, a limit or an idle timeout it goes on or raises. */
  lemma DefaultRunGoesOn(feed: seq<Event>, consumer: string, o: Loop.Options, now: int, s: Session,
                         polls: seq<RunPoll>)
    requires s.sys.sinks != [] && o.infinite && o.maxBatches <= 0 && o.idleTimeout <= 0
    requires forall k :: 0 <= k < |polls| ==> !polls[k].stopBefore && !polls[k].stopAfter
    ensures var r := RunLoop(feed, consumer, o, Loop.Start(o, now), s, polls);
            r.exit.Some? ==> r.exit.value.Failed?
  {
    RunReturnsExactlyWhen(feed, consumer, o, now, s, polls);
    RunObserves(feed, consumer, o, Loop.Start(o, now), s, polls);
  }

  // ------------------------------------------------------------------ when run() raises

  /** A write that ends the delivery: refused by a required sink, or interrupted. */
  predicate Ends(required: bool, result: WriteResult) {
    result.Refused? && (required || !result.failure.isException)
  }

  /** A commit try that is made again, if there are tries left. */
  predicate Lost(reply: CommitResult) { reply.NotCommitted? && Transient(reply.failure) }

  /** The first write that ends the delivery, at sink k, is refused with this failure. */
  predicate RaisedAtSink(required: seq<bool>, writes: nat -> WriteResult, k: nat, f: Failure) {
    && k < |required| && Ends(required[k], writes(k)) && writes(k).failure == f
    && forall i :: 0 <= i < k ==> !Ends(required[i], writes(i))
  }

  predicate EverySinkDone(required: seq<bool>, writes: nat -> WriteResult) {
    forall i :: 0 <= i < |required| ==> !Ends(required[i], writes(i))
  }

  /** Commit try j of at most five is the first that is not lost, or the fifth. */
  predicate LastTry(commits: nat -> CommitResult, j: nat) {
    j < 5 && (forall i :: 0 <= i < j ==> Lost(commits(i))) && (j == 4 || !Lost(commits(j)))
  }

  function Required(s: Session): seq<bool> {
    seq(|s.sys.sinks|, i requires 0 <= i < |s.sys.sinks| => s.sys.sinks[i].required)
  }

  /** A pass that saw these rows raises this failure. */
  ghost predicate Raises(required: seq<bool>, p: RunPoll, rows: seq<Row>, f: Failure) {
    || (!p.stopBefore && p.listenFailure == Some(f))
    || (rows != [] && exists k: nat :: RaisedAtSink(required, p.writes, k, f))
    || (rows != [] && EverySinkDone(required, p.writes)
        && exists j: nat :: LastTry(p.commits, j) && p.commits(j).NotCommitted? && p.commits(j).failure == f)
  }

  lemma {:induction false} DeliveryEnds(s: Session, writes: nat -> WriteResult) returns (k: nat)
    requires s.sys.phase.Delivering? && s.sys.phase.next < |s.sys.sinks|
    ensures var (s', o) := DeliverRest(s, writes);
            && Required(s') == Required(s)
            && s.sys.phase.next <= k <= |s.sys.sinks|
            && (forall i :: s.sys.phase.next <= i < k ==> !Ends(s.sys.sinks[i].required, writes(i)))
            && if k == |s.sys.sinks| then o == Returned(())
               else Ends(s.sys.sinks[k].required, writes(k)) && o == Raised(writes(k).failure)
    decreases |s.sys.sinks| - s.sys.phase.next
  {
    k := s.sys.phase.next;
    var s' := Write(s, writes(k));
    assert Required(s') == Required(s);
    if Passes(s.sys.sinks[k].required, writes(k)) {
      k := k + 1;
      if s'.sys.phase.Delivering? {
        k := DeliveryEnds(s', writes);
        forall i | s.sys.phase.next < i < |s.sys.sinks|
          ensures s'.sys.sinks[i].required == s.sys.sinks[i].required
        {
        }
      }
    }
  }

  lemma {:induction false} CommitEnds(replies: nat -> CommitResult, s: Session, k: nat, left: nat) returns (j: nat)
    requires left >= 1 && s.sys.phase.Acked?
    ensures var r := RetryFrom(CommitBatch(replies), s, k, left);
            && Required(r.state) == Required(s)
            && k <= j < k + left && (forall i :: k <= i < j ==> Lost(replies(i)))
            && (j == k + left - 1 || !Lost(replies(j)))
            && r.outcome == if replies(j).Committed? then Returned(()) else Raised(replies(j).failure)
    decreases left
  {
    var (s', o) := CommitBatch(replies)(k, s);
    assert (s', o) == CommitOnce(replies, k, s);
    j := k;
    if !(Decisive(o) || left == 1) {
      j := CommitEnds(replies, s', k + 1, left - 1);
    }
  }

  /** Handling a batch raises exactly what its writes or its commit raise. */
  lemma HandlingRaises(s: Session, p: RunPoll, rows: seq<Row>)
    requires s.sys.phase.Delivering? && s.sys.phase.next == 0 && s.sys.sinks != [] && rows != []
    requires p.listenFailure.None?
    ensures var (s', o) := Handled(s, p);
            && Required(s') == Required(s)
            && forall f :: Raises(Required(s), p, rows, f) <==> o == Raised(f)
  {
    var required := Required(s);
    var (s1, delivered) := DeliverRest(s, p.writes);
    var k := DeliveryEnds(s, p.writes);
    if delivered.Raised? {
      assert RaisedAtSink(required, p.writes, k, delivered.failure);
      forall f ensures Raises(required, p, rows, f) <==> delivered == Raised(f) {
        if i: nat :| RaisedAtSink(required, p.writes, i, f) {
          assert i == k;
        }
      }
    } else {
      assert EverySinkDone(required, p.writes);
      var j := CommitEnds(p.commits, s1, 0, MAX_ATTEMPTS);
      assert LastTry(p.commits, j);
      var o := Handled(s, p).1;
      forall f ensures Raises(required, p, rows, f) <==> o == Raised(f) {
        if i: nat :| LastTry(p.commits, i) && p.commits(i).NotCommitted? && p.commits(i).failure == f {
          assert i == j;
        }
      }
    }
  }

  /** The rows that pass k saw; a pass whose listen raised saw none. */
  function RowsSeen(seen: seq<Loop.Poll>, k: nat): seq<Row> { if k < |seen| then seen[k].rows else [] }

  /** A pass that saw these rows raises exactly what its exit says. */
  ghost predicate RaisesExactly(required: seq<bool>, p: RunPoll, rows: seq<Row>, exit: Option<RunExit>) {
    forall f :: Raises(required, p, rows, f) <==> exit == Some(Failed(f))
  }

  /** The rows that a pass shows the loop. */
  function PassRows(r: PassResult): seq<Row> { if r.Passed? then r.poll.rows else [] }

  /** A pass raises exactly what its listen, its writes or its commit raise. */
  lemma PassRaises(feed: seq<Event>, consumer: string, o: Loop.Options, st: Loop.State, s: Session, p: RunPoll)
    requires Loop.Sound(o, st) && s.sys.sinks != []
    ensures var r := RunPass(feed, consumer, o, st, s, p);
            && Required(r.session) == Required(s)
            && RaisesExactly(Required(s), p, PassRows(r), r.Exit())
  {
    var r := RunPass(feed, consumer, o, st, s, p);
    if !p.stopBefore && p.listenFailure.None? {
      PassShape(feed, consumer, o, st, s, p);
      var s2 := AfterListen(feed, consumer, o, st, s, p);
      SameRequired(s, s2);
      if s2.sys.phase.Delivering? {
        HandlingRaises(s2, p, r.poll.rows);
        ExitOfOutcome(Required(s), p, r.poll.rows, r.outcome, r.Exit());
      } else {
        NoRowsNoRaise(Required(s), p, r.Exit());
      }
    } else if p.stopBefore {
      NoRowsNoRaise(Required(s), p, r.Exit());
    } else {
      ListenRaises(Required(s), p);
    }
  }

  lemma SameRequired(s: Session, t: Session)
    requires s.sys.sinks == t.sys.sinks
    ensures Required(s) == Required(t)
  {
  }

  lemma ExitOfOutcome(required: seq<bool>, p: RunPoll, rows: seq<Row>, o: Outcome<()>, exit: Option<RunExit>)
    requires forall f :: Raises(required, p, rows, f) <==> o == Raised(f)
    requires o.Raised? ==> exit == Some(Failed(o.failure))
    requires o.Returned? ==> exit.None? || exit.value.Finished?
    ensures RaisesExactly(required, p, rows, exit)
  {
  }

  lemma NoRowsNoRaise(required: seq<bool>, p: RunPoll, exit: Option<RunExit>)
    requires p.stopBefore || p.listenFailure.None?
    requires exit.None? || exit.value.Finished?
    ensures RaisesExactly(required, p, [], exit)
  {
  }

  lemma ListenRaises(required: seq<bool>, p: RunPoll)
    requires !p.stopBefore && p.listenFailure.Some?
    ensures RaisesExactly(required, p, [], Some(Failed(p.listenFailure.value)))
  {
  }

  /** The first n passes raise nothing. */
  ghost predicate QuietUntil(required: seq<bool>, polls: seq<RunPoll>, seen: seq<Loop.Poll>, n: nat) {
    n <= |polls| && forall k: nat, f :: k < n ==> !Raises(required, polls[k], RowsSeen(seen, k), f)
  }

  /** run() makes n passes; it raises what the last of them raises, and none before it raises anything. */
  ghost predicate RaisesWith(required: seq<bool>, polls: seq<RunPoll>, seen: seq<Loop.Poll>, n: nat,
                             exit: Option<RunExit>) {
    && n <= |polls| && |seen| <= n <= |seen| + 1
    && if exit.Some? && exit.value.Failed? then
         && n > 0 && QuietUntil(required, polls, seen, n - 1)
         && Raises(required, polls[n - 1], RowsSeen(seen, n - 1), exit.value.failure)
       else n == |seen| && QuietUntil(required, polls, seen, n)
  }

  lemma RaisesWithCons(required: seq<bool>, polls: seq<RunPoll>, lp: Loop.Poll, seen: seq<Loop.Poll>, n: nat,
                       exit: Option<RunExit>)
    requires polls != [] && RaisesExactly(required, polls[0], lp.rows, None)
    requires RaisesWith(required, polls[1..], seen, n, exit)
    ensures RaisesWith(required, polls, [lp] + seen, n + 1, exit)
  {
    var quiet := if exit.Some? && exit.value.Failed? then n else n + 1;
    forall k: nat, f | k < quiet ensures !Raises(required, polls[k], RowsSeen([lp] + seen, k), f) {
      if k > 0 {
        assert polls[1..][k - 1] == polls[k] && RowsSeen([lp] + seen, k) == RowsSeen(seen, k - 1);
      }
    }
    if exit.Some? && exit.value.Failed? {
      assert polls[1..][n - 1] == polls[n] && RowsSeen([lp] + seen, n) == RowsSeen(seen, n - 1);
    }
  }

  /** The last pass of run(). */
  lemma LastPassRaises(required: seq<bool>, polls: seq<RunPoll>, seen: seq<Loop.Poll>, exit: RunExit)
    requires polls != [] && |seen| <= 1 && (exit.Finished? ==> |seen| == 1)
    requires RaisesExactly(required, polls[0], RowsSeen(seen, 0), Some(exit))
    ensures RaisesWith(required, polls, seen, 1, Some(exit))
  {
  }

  /**
   run() raises exactly when a pass does: when its listen raised, when a required sink refused the batch or
   any sink was interrupted, or when cdc_commit gave up; and it raises that failure.  No pass is made after
   one that raised, and a run() that does not raise has had none.
   */
  lemma {:induction false} RunRaisesExactlyWhen(
    feed: seq<Event>, consumer: string, o: Loop.Options, st: Loop.State, s: Session, polls: seq<RunPoll>)
    returns (n: nat)
    requires Loop.Sound(o, st) && s.sys.sinks != []
    ensures var r := RunLoop(feed, consumer, o, st, s, polls);
            RaisesWith(Required(s), polls, r.polls, n, r.exit)
    decreases polls
  {
    if polls == [] {
      n := 0;
    } else {
      var r := RunPass(feed, consumer, o, st, s, polls[0]);
      n := 1;
      PassRaises(feed, consumer, o, st, s, polls[0]);
      assert RowsSeen(r.Polls(), 0) == PassRows(r);
      if r.Exit().Some? {
        LastPassRaises(Required(s), polls, r.Polls(), r.Exit().value);
      } else {
        var m := RunRaisesExactlyWhen(feed, consumer, o, r.pass.state, r.session, polls[1..]);
        var tail := RunLoop(feed, consumer, o, r.pass.state, r.session, polls[1..]);
        RaisesWithCons(Required(s), polls, r.poll, tail.polls, m, tail.exit);
        n := m + 1;
      }
    }
  }

  // ------------------------------------------------------------------ what a normal return leaves behind

  /** Nothing of these listens' windows is left behind the cursor. */
  ghost predicate AllServed(feed: seq<Event>, listens: seq<Action>, cursor: int) {
    forall a :: a in listens && a.Listen? ==> Between(feed, cursor, a.e) == []
  }

  lemma AllServedLater(feed: seq<Event>, listens: seq<Action>, cursor: int, later: int)
    requires Ordered(feed) && AllServed(feed, listens, cursor) && cursor <= later
    ensures AllServed(feed, listens, later)
  {
    forall a | a in listens && a.Listen? ensures Between(feed, later, a.e) == [] {
      NothingBehind(feed, cursor, later, a.e);
    }
  }

  /** Behind the batch of the last listen, or behind the cursor if it returned nothing, its window has no more. */
  ghost predicate PollServed(feed: seq<Event>, s: Session) {
    && s.log != [] && s.log[|s.log| - 1].Listen?
    && Between(feed, if s.sys.phase.Delivering? then s.sys.phase.batch.end else s.sys.cursor,
               s.log[|s.log| - 1].e) == []
  }

  lemma PollServes(feed: seq<Event>, consumer: string, start: int, o: Loop.Options, st: Loop.State, s: Session,
                   p: RunPoll)
    requires Ordered(feed) && Invariant(feed, start, s.sys) && s.sys.phase == Idle && !p.stopBefore
    ensures PollServed(feed, AfterListen(feed, consumer, o, st, s, p))
  {
    var s2 := AfterListen(feed, consumer, o, st, s, p);
    var listen := s2.log[|s2.log| - 1];
    ListenServes(feed, consumer, s.sys.cursor, listen.e, listen.e, listen.rows);
  }

  /** Handling a batch without raising leaves the cursor at its end. */
  lemma HandledServes(feed: seq<Event>, consumer: string, s: Session, p: RunPoll, e: int)
    requires s.sys.phase.Delivering? && s.sys.phase.next < |s.sys.sinks|
    requires Between(feed, s.sys.phase.batch.end, e) == []
    ensures Handled(s, p).1.Returned? ==> Between(feed, Handled(s, p).0.sys.cursor, e) == []
  {
    HandledStaysAlong(feed, consumer, s, p);
  }

  /** What the poll left to do is done when the pass does not raise. */
  lemma PollHandled(feed: seq<Event>, consumer: string, o: Loop.Options, st: Loop.State, s: Session, p: RunPoll)
    requires Loop.Sound(o, st) && s.sys.sinks != [] && !p.stopBefore && p.listenFailure.None?
    requires PollServed(feed, AfterListen(feed, consumer, o, st, s, p))
    ensures var r, s2 := RunPass(feed, consumer, o, st, s, p), AfterListen(feed, consumer, o, st, s, p);
            r.Passed? && (r.outcome.Returned? ==> Between(feed, r.session.sys.cursor, s2.log[|s2.log| - 1].e) == [])
  {
    var s2 := AfterListen(feed, consumer, o, st, s, p);
    PassShape(feed, consumer, o, st, s, p);
    if s2.sys.phase.Delivering? {
      HandledServes(feed, consumer, s2, p, s2.log[|s2.log| - 1].e);
    }
  }

  /** A pass that does not raise has committed all that its listen returned. */
  lemma PassServes(feed: seq<Event>, consumer: string, o: Loop.Options, st: Loop.State, s: Session, p: RunPoll)
    returns (listens: seq<Action>)
    requires Loop.Sound(o, st) && s.sys.sinks != []
    requires !p.stopBefore ==> PollServed(feed, AfterListen(feed, consumer, o, st, s, p))
    ensures var r := RunPass(feed, consumer, o, st, s, p);
            && Listened(s, r.session, listens)
            && (r.Passed? && r.outcome.Returned? ==> AllServed(feed, listens, r.session.sys.cursor))
  {
    listens := PassListens(feed, consumer, o, st, s, p);
    var r := RunPass(feed, consumer, o, st, s, p);
    if listens != [] {
      PollHandled(feed, consumer, o, st, s, p);
      OneServed(feed, listens, r.outcome.Returned?, r.session.sys.cursor);
    }
  }

  lemma OneServed(feed: seq<Event>, listens: seq<Action>, returned: bool, cursor: int)
    requires |listens| == 1 && listens[0].Listen? && (returned ==> Between(feed, cursor, listens[0].e) == [])
    ensures returned ==> AllServed(feed, listens, cursor)
  {
  }

  /**
   When run() does not raise, nothing that a listen of it could have returned is left behind the cursor:
   every batch it polled was committed.
   */
  lemma {:induction false} RunServesItsListens(
    feed: seq<Event>, consumer: string, start: int, o: Loop.Options, st: Loop.State, s: Session,
    polls: seq<RunPoll>)
    returns (listens: seq<Action>)
    requires Ordered(feed) && Invariant(feed, start, s.sys) && s.sys.phase == Idle
    requires Loop.Sound(o, st) && s.sys.sinks != []
    ensures var r := RunLoop(feed, consumer, o, st, s, polls);
            && Listened(s, r.session, listens)
            && (r.exit.None? || r.exit.value.Finished? ==> AllServed(feed, listens, r.session.sys.cursor))
    decreases polls
  {
    if polls == [] {
      listens := [];
      ListenedSelf(s);
    } else {
      var r := RunPass(feed, consumer, o, st, s, polls[0]);
      if !polls[0].stopBefore {
        PollServes(feed, consumer, start, o, st, s, polls[0]);
      }
      listens := PassServes(feed, consumer, o, st, s, polls[0]);
      if r.Exit().None? {
        PassFollowsProtocol(feed, consumer, start, o, st, s, polls[0]);
        var rest := RunServesItsListens(feed, consumer, start, o, r.pass.state, r.session, polls[1..]);
        var tail := RunLoop(feed, consumer, o, r.pass.state, r.session, polls[1..]);
        ListenedTrans(s, r.session, tail.session, listens, rest);
        CursorGoesOn(feed, consumer, start, o, r.pass.state, r.session, polls[1..]);
        AllServedLater(feed, listens, r.session.sys.cursor, tail.session.sys.cursor);
        listens := listens + rest;
      }
    }
  }

  lemma CursorGoesOn(feed: seq<Event>, consumer: string, start: int, o: Loop.Options, st: Loop.State, s: Session,
                     polls: seq<RunPoll>)
    requires Ordered(feed) && Invariant(feed, start, s.sys) && s.sys.phase == Idle
    requires Loop.Sound(o, st) && s.sys.sinks != []
    ensures s.sys.cursor <= RunLoop(feed, consumer, o, st, s, polls).session.sys.cursor
  {
    RunFollowsProtocol(feed, consumer, start, o, st, s, polls);
    var r := RunLoop(feed, consumer, o, st, s, polls);
    RunKeepsInvariant(feed, consumer, start, s.sys, Runs.Since(s, r.session));
  }
}
