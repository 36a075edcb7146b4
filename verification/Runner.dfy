/** `consumer.run()`: the polling loop, the delivery to the sinks and the commit, put together. */
module Runner {
  import opened Prelude
  import opened Feed
  import opened Batches
  import opened Retry
  import Loop
  import opened Delivery
  import Runs

  /** The system, and the protocol actions taken so far. */
  type Session = Runs.Traced<System, Action>

  function Write(s: Session, result: WriteResult): Session
    requires s.sys.phase.Delivering? && s.sys.phase.next < |s.sys.sinks|
  {
    Runs.Traced(Delivered(s.sys, result), s.log + [Deliver(result)])
  }

  /** Write the batch to the sinks not yet served, in order, up to the first failure that is not absorbed. */
  function DeliverRest(s: Session, writes: nat -> WriteResult): (r: (Session, Outcome<()>))
    requires s.sys.phase.Delivering? && s.sys.phase.next < |s.sys.sinks|
    ensures r.1.Returned? ==> r.0.sys.phase == Acked(s.sys.phase.batch)
    ensures r.1.Raised? ==> r.0.sys.phase == Idle
    ensures r.1.Returned? <==> forall k :: s.sys.phase.next <= k < |s.sys.sinks| ==>
              writes(k).Accepted? || (!s.sys.sinks[k].required && writes(k).failure.isException)
    decreases |s.sys.sinks| - s.sys.phase.next
  {
    var result := writes(s.sys.phase.next);
    var s' := Write(s, result);
    if !Passes(s.sys.sinks[s.sys.phase.next].required, result) then (s', Raised(result.failure))
    else if s'.sys.phase.Acked? then (s', Returned(()))
    else DeliverRest(s', writes)
  }

  /** One try of batch.commit(). */
  function CommitOnce(replies: nat -> CommitResult, k: nat, s: Session): (r: (Session, Outcome<()>))
    ensures |r.0.sys.sinks| == |s.sys.sinks|
  {
    if s.sys.phase.Acked? then
      var reply := replies(k);
      (Runs.Traced(CommitTried(s.sys, reply), s.log + [CdcCommit(reply)]),
       if reply.Committed? then Returned(()) else Raised(reply.failure))
    else (s, Returned(()))
  }

  function CommitBatch(replies: nat -> CommitResult): Operation<Session, ()> {
    (k: nat, s: Session) => CommitOnce(replies, k, s)
  }

  function LeftWith(s: Session): Session { Runs.Traced(s.sys.(phase := Idle), s.log + [Leave]) }

  /** batch.commit() under the default retry policy; a failure leaves run(). */
  function CommitAll(s: Session, replies: nat -> CommitResult): (Session, Outcome<()>) {
    var commit := RetryFrom(CommitBatch(replies), s, 0, MAX_ATTEMPTS);
    (if commit.outcome.Raised? then LeftWith(commit.state) else commit.state, commit.outcome)
  }

  /** Deliver a listened batch and commit it, with the cursor's own retries. */
  function Handled(s: Session, p: RunPoll): (r: (Session, Outcome<()>))
    requires s.sys.phase.Delivering? && s.sys.phase.next < |s.sys.sinks|
  {
    var (s', delivered) := DeliverRest(s, p.writes);
    if delivered.Raised? then (s', delivered) else CommitAll(s', p.commits)
  }

  /** The environment of one pass: how far the producer is, and how everything the pass calls behaves. */
  datatype RunPoll = RunPoll(
    head: int, stopBefore: bool, listenFailure: Option<Failure>, window: int -> int,
    stamps: seq<(bool, bool)>, elapsedMs: real, stopAfter: bool, now: int,
    writes: nat -> WriteResult, commits: nat -> CommitResult)

  datatype RunExit = Finished(exit: Loop.Exit) | Failed(failure: Failure)

  /** What run() returns, does and saw.  No exit means that the schedule ended first. */
  datatype RunResult = RunResult(
    session: Session, delivered: nat, yielded: seq<Batch>, polls: seq<Loop.Poll>, exit: Option<RunExit>)

  /** The listen of a pass: the window the extension chooses for the requested size, cut to what exists. */
  function WindowEnd(s: System, requested: int, p: RunPoll): int { Max(s.cursor, Min(p.window(requested), s.head)) }

  function Polled(s: Session, feed: seq<Event>, consumer: string, requested: int, p: RunPoll): Session {
    var e := WindowEnd(s.sys, requested, p);
    var rows := Batches.Reply(feed, s.sys.cursor, e, p.stamps);
    Runs.Traced(Listened(s.sys, consumer, rows), s.log + [Listen(requested, e, rows)])
  }

  function Advanced(s: Session, p: RunPoll): Session {
    var head := Max(s.sys.head, p.head);
    Runs.Traced(s.sys.(head := head), s.log + [Advance(head)])
  }

  function LoopPoll(p: RunPoll, rows: seq<Row>): Loop.Poll {
    Loop.Poll(p.stopBefore, rows, p.elapsedMs, p.stopAfter, false, p.now)
  }

  function Extend(delivered: nat, yielded: seq<Batch>, polls: seq<Loop.Poll>, r: RunResult): RunResult {
    RunResult(r.session, delivered + r.delivered, yielded + r.yielded, polls + r.polls, r.exit)
  }

  /**
   One pass through run()'s loop.  Either the listen raised, or the loop of batches() made one pass on the
   poll; then the session is what delivering and committing the batch left, or raised.
   */
  datatype PassResult =
    | NoListen(session: Session, failure: Failure)
    | Passed(session: Session, poll: Loop.Poll, pass: Loop.Pass, outcome: Outcome<()>)
  {
    function Yielded(): seq<Batch> {
      if Passed? && pass.batch.Some? then [pass.batch.value] else []
    }

    function Delivered(): nat {
      if Passed? && pass.batch.Some? && outcome.Returned? then 1 else 0
    }

    function Polls(): seq<Loop.Poll> { if Passed? then [poll] else [] }

    function Exit(): Option<RunExit> {
      if NoListen? then Some(Failed(failure))
      else if outcome.Raised? then Some(Failed(outcome.failure))
      else if pass.exit.Some? then Some(Finished(pass.exit.value))
      else None
    }
  }

  /** The session after a pass's listen; a pass that finds the stop event set does not listen. */
  function AfterListen(feed: seq<Event>, consumer: string, o: Loop.Options, st: Loop.State, s: Session,
                       p: RunPoll): (s2: Session)
    ensures s2.sys.sinks == s.sys.sinks
    ensures !p.stopBefore ==> s2.log != [] && s2.log[|s2.log| - 1].Listen?
    ensures !p.stopBefore ==>
              var rows := s2.log[|s2.log| - 1].rows;
              s2.sys.phase == if rows == [] then Idle else Delivering(BuildBatch(consumer, rows), 0)
  {
    if p.stopBefore then s else Polled(Advanced(s, p), feed, consumer, Loop.Requested(o, st), p)
  }

  /** A pass from its listen on: the loop sees the rows, and the batch it yields is handled. */
  function Judged(consumer: string, o: Loop.Options, st: Loop.State, s: Session, p: RunPoll, rows: seq<Row>)
    : (r: PassResult)
    requires Loop.Sound(o, st)
    requires rows != [] ==> s.sys.phase == Delivering(BuildBatch(consumer, rows), 0) && s.sys.sinks != []
    ensures |r.session.sys.sinks| == |s.sys.sinks|
    ensures r.Passed? && r.poll == Loop.Poll(p.stopBefore, rows, p.elapsedMs, p.stopAfter, false, p.now)
    ensures r.pass == Loop.Iterate(o, consumer, st, r.poll)
    ensures rows == [] || p.stopBefore ==> r.session == s && r.outcome == Returned(())
    ensures rows != [] && !p.stopBefore ==> (r.session, r.outcome) == Handled(s, p)
  {
    var lp := LoopPoll(p, rows);
    var pass := Loop.Iterate(o, consumer, st, lp);
    if pass.batch.None? then Passed(s, lp, pass, Returned(()))
    else
      HandledKeepsSinks(s, p);
      var (s', outcome) := Handled(s, p);
      Passed(s', lp, pass, outcome)
  }

  function RunPass(feed: seq<Event>, consumer: string, o: Loop.Options, st: Loop.State, s: Session,
                   p: RunPoll): (r: PassResult)
    requires Loop.Sound(o, st) && s.sys.sinks != []
    ensures |r.session.sys.sinks| == |s.sys.sinks|
    ensures r.Passed? ==>
              && r.poll == Loop.Poll(p.stopBefore, r.poll.rows, p.elapsedMs, p.stopAfter, false, p.now)
              && r.pass == Loop.Iterate(o, consumer, st, r.poll)
  {
    if !p.stopBefore && p.listenFailure.Some? then NoListen(s, p.listenFailure.value)
    else
      var s2 := AfterListen(feed, consumer, o, st, s, p);
      Judged(consumer, o, st, s2, p, if p.stopBefore then [] else s2.log[|s2.log| - 1].rows)
  }

  /** run() from a loop state on. */
  function RunLoop(feed: seq<Event>, consumer: string, o: Loop.Options, st: Loop.State, s: Session,
                   polls: seq<RunPoll>): RunResult
    requires Loop.Sound(o, st) && s.sys.sinks != []
    decreases polls
  {
    if polls == [] then RunResult(s, 0, [], [], None)
    else
      var r := RunPass(feed, consumer, o, st, s, polls[0]);
      if r.Exit().Some? then RunResult(r.session, r.Delivered(), r.Yielded(), r.Polls(), r.Exit())
      else
        Extend(r.Delivered(), r.Yielded(), r.Polls(),
               RunLoop(feed, consumer, o, r.pass.state, r.session, polls[1..]))
  }

  lemma {:induction false} DeliverKeepsSinks(s: Session, writes: nat -> WriteResult)
    requires s.sys.phase.Delivering? && s.sys.phase.next < |s.sys.sinks|
    ensures |DeliverRest(s, writes).0.sys.sinks| == |s.sys.sinks|
    decreases |s.sys.sinks| - s.sys.phase.next
  {
    var result := writes(s.sys.phase.next);
    var s' := Write(s, result);
    if s'.sys.phase.Delivering? {
      DeliverKeepsSinks(s', writes);
    }
  }

  lemma {:induction false} CommitKeepsSinks(replies: nat -> CommitResult, s: Session, k: nat, left: nat)
    requires left >= 1
    ensures |RetryFrom(CommitBatch(replies), s, k, left).state.sys.sinks| == |s.sys.sinks|
    decreases left
  {
    var (s', o) := CommitBatch(replies)(k, s);
    assert (s', o) == CommitOnce(replies, k, s);
    if !(Decisive(o) || left == 1) {
      CommitKeepsSinks(replies, s', k + 1, left - 1);
    }
  }

  lemma HandledKeepsSinks(s: Session, p: RunPoll)
    requires s.sys.phase.Delivering? && s.sys.phase.next < |s.sys.sinks|
    ensures |Handled(s, p).0.sys.sinks| == |s.sys.sinks|
  {
    DeliverKeepsSinks(s, p.writes);
    CommitKeepsSinks(p.commits, DeliverRest(s, p.writes).0, 0, MAX_ATTEMPTS);
  }

  // ------------------------------------------------------------------ the consumer object

  const NO_SINKS := Failure(["run() requires at least one sink"], true)

  class Consumer {
    const name: string
    const feed: seq<Event>    // what the server will ever serve
    var session: Session

    constructor (name: string, feed: seq<Event>, session: Session)
      ensures this.name == name && this.feed == feed && this.session == session
    {
      this.name := name;
      this.feed := feed;
      this.session := session;
    }

    /** Every sink in turn; a required sink's exception propagates, an optional sink's is only logged. */
    method DeliverBatch(writes: nat -> WriteResult) returns (outcome: Outcome<()>)
      requires session.sys.phase.Delivering? && session.sys.phase.next == 0 && session.sys.sinks != []
      modifies this
      ensures (session, outcome) == DeliverRest(old(session), writes)
    {
      ghost var b := session.sys.phase.batch;
      var count := |session.sys.sinks|;
      for i := 0 to count
        invariant |session.sys.sinks| == count
        invariant i < count ==> session.sys.phase == Delivering(b, i)
                                && DeliverRest(old(session), writes) == DeliverRest(session, writes)
        invariant i == count ==> session.sys.phase == Acked(b)
                                 && DeliverRest(old(session), writes) == (session, Returned(()))
      {
        var required := session.sys.sinks[i].required;
        var result := writes(i);
        session := Write(session, result);
        if result.Refused? {
          if !result.failure.isException || required {
            return Raised(result.failure);
          }
        }
      }
      return Returned(());
    }

    method CommitAcked(replies: nat -> CommitResult) returns (outcome: Outcome<()>)
      modifies this
      ensures (session, outcome) == CommitAll(old(session), replies)
    {
      var retried, _ := RetryOnTransient(CommitBatch(replies), session, MAX_ATTEMPTS);
      session := retried.value.state;
      outcome := retried.value.outcome;
      if outcome.Raised? {
        session := LeftWith(session);
      }
    }

    method Listen(requested: int, p: RunPoll) returns (rows: seq<Row>)
      modifies this
      ensures session == Polled(Advanced(old(session), p), feed, name, requested, p)
      ensures rows == session.log[|session.log| - 1].rows
    {
      session := Polled(Advanced(session, p), feed, name, requested, p);
      rows := session.log[|session.log| - 1].rows;
    }

    method Handle(p: RunPoll) returns (outcome: Outcome<()>)
      requires session.sys.phase.Delivering? && session.sys.phase.next == 0 && session.sys.sinks != []
      modifies this
      ensures (session, outcome) == Handled(old(session), p)
    {
      outcome := DeliverBatch(p.writes);
      if outcome.Returned? {
        outcome := CommitAcked(p.commits);
      }
    }

    /** One pass: poll, and deliver and commit what was polled. */
    method RunOnce(batches: Loop.BatchLoop, p: RunPoll) returns (r: PassResult)
      requires batches.Valid() && batches.consumer == name && session.sys.sinks != []
      requires Loop.Sound(batches.options, batches.View())
      modifies this, batches, batches.window
      ensures batches.Valid() && batches.View() == if r.Passed? then r.pass.state else old(batches.View())
      ensures r == RunPass(feed, name, batches.options, old(batches.View()), old(session), p)
      ensures session == r.session
    {
      var rows := [];
      if !p.stopBefore {
        if p.listenFailure.Some? {
          return NoListen(session, p.listenFailure.value);
        }
        rows := Listen(if batches.options.dml then batches.window.current else batches.options.maxSnapshots, p);
      }
      var poll := LoopPoll(p, rows);
      var batch, exit := batches.Step(poll);
      var outcome := Returned(());
      if batch.Some? {
        outcome := Handle(p);
      }
      return Passed(session, poll, Loop.Pass(batches.View(), batch, exit), outcome);
    }

    /** Pass number i of a run, on top of what the passes before it collected. */
    method RunAt(batches: Loop.BatchLoop, polls: seq<RunPoll>, i: nat, ghost d: nat, ghost ys: seq<Batch>,
                 ghost ps: seq<Loop.Poll>)
      returns (r: PassResult)
      requires batches.Valid() && batches.consumer == name && session.sys.sinks != [] && i < |polls|
      requires Loop.Sound(batches.options, batches.View())
      modifies this, batches, batches.window
      ensures batches.Valid() && session.sys.sinks != [] && Loop.Sound(batches.options, batches.View())
      ensures Extend(d, ys, ps,
                     RunLoop(feed, name, batches.options, old(batches.View()), old(session), polls[i..]))
              == if r.Exit().Some? then
                   RunResult(session, d + r.Delivered(), ys + r.Yielded(), ps + r.Polls(), r.Exit())
                 else
                   Extend(d + r.Delivered(), ys + r.Yielded(), ps + r.Polls(),
                          RunLoop(feed, name, batches.options, batches.View(), session, polls[i + 1..]))
    {
      RunLoopStep(feed, name, batches.options, batches.View(), session, polls, i, d, ys, ps);
      r := RunOnce(batches, polls[i]);
    }

    /** Poll, deliver, commit, repeat.  The result counts the batches that were committed. */
    method Run(o: Loop.Options, now: int, polls: seq<RunPoll>)
      returns (delivered: nat, yielded: seq<Batch>, seen: seq<Loop.Poll>, exit: Option<RunExit>)
      modifies this
      ensures old(session.sys.sinks) == [] ==>
                exit == Some(Failed(NO_SINKS)) && delivered == 0 && session == old(session)
      ensures old(session.sys.sinks) != [] ==>
                RunResult(session, delivered, yielded, seen, exit)
                == RunLoop(feed, name, o, Loop.Start(o, now), old(session), polls)
    {
      delivered, yielded, seen, exit := 0, [], [], None;
      if session.sys.sinks == [] {
        exit := Some(Failed(NO_SINKS));
        return;
      }
      var batches := new Loop.BatchLoop(o, name, now);
      var i := 0;
      assert polls[0..] == polls;
      ghost var whole := RunLoop(feed, name, o, Loop.Start(o, now), session, polls);
      while i < |polls| && exit.None?
        invariant 0 <= i <= |polls| && batches.Valid() && fresh(batches) && fresh(batches.window)
        invariant batches.options == o && batches.consumer == name && session.sys.sinks != []
        invariant Loop.Sound(o, batches.View())
        invariant whole == if exit.Some? then RunResult(session, delivered, yielded, seen, exit)
                           else Extend(delivered, yielded, seen,
                                       RunLoop(feed, name, o, batches.View(), session, polls[i..]))
        decreases |polls| - i
      {
        var r := RunAt(batches, polls, i, delivered, yielded, seen);
        delivered, yielded, seen, exit :=
          delivered + r.Delivered(), yielded + r.Yielded(), seen + r.Polls(), r.Exit();
        i := i + 1;
      }
    }
  }

  lemma ExtendTwice(d: nat, ys: seq<Batch>, ps: seq<Loop.Poll>, d': nat, ys': seq<Batch>, ps': seq<Loop.Poll>,
                    r: RunResult)
    ensures Extend(d, ys, ps, Extend(d', ys', ps', r)) == Extend(d + d', ys + ys', ps + ps', r)
  {
    assert ys + (ys' + r.yielded) == (ys + ys') + r.yielded;
    assert ps + (ps' + r.polls) == (ps + ps') + r.polls;
  }

  /** One more pass of run(), from poll i on, on top of what earlier passes collected. */
  lemma RunLoopStep(feed: seq<Event>, consumer: string, o: Loop.Options, st: Loop.State, s: Session,
                    polls: seq<RunPoll>, i: nat, d: nat, ys: seq<Batch>, ps: seq<Loop.Poll>)
    requires Loop.Sound(o, st) && s.sys.sinks != [] && i < |polls|
    ensures var r := RunPass(feed, consumer, o, st, s, polls[i]);
            Extend(d, ys, ps, RunLoop(feed, consumer, o, st, s, polls[i..]))
            == if r.Exit().Some? then
                 RunResult(r.session, d + r.Delivered(), ys + r.Yielded(), ps + r.Polls(), r.Exit())
               else
                 Extend(d + r.Delivered(), ys + r.Yielded(), ps + r.Polls(),
                        RunLoop(feed, consumer, o, r.pass.state, r.session, polls[i + 1..]))
  {
    assert polls[i..][0] == polls[i] && polls[i..][1..] == polls[i + 1..];
    var r := RunPass(feed, consumer, o, st, s, polls[i]);
    if r.Exit().None? {
      ExtendTwice(d, ys, ps, r.Delivered(), r.Yielded(), r.Polls(),
                  RunLoop(feed, consumer, o, r.pass.state, r.session, polls[i + 1..]));
    }
  }

  // ------------------------------------------------------------------ run() follows the protocol

  /** The actions logged between two sessions are a run of the delivery protocol. */
  ghost predicate Along(feed: seq<Event>, consumer: string, before: Session, after: Session) {
    Runs.Along(Steps(feed, consumer), before, after)
  }

  lemma {:induction false} DeliverStaysAlong(
    feed: seq<Event>, consumer: string, s: Session, writes: nat -> WriteResult)
    requires s.sys.phase.Delivering? && s.sys.phase.next < |s.sys.sinks|
    ensures Along(feed, consumer, s, DeliverRest(s, writes).0)
    decreases |s.sys.sinks| - s.sys.phase.next
  {
    var result := writes(s.sys.phase.next);
    var s' := Write(s, result);
    Runs.AlongOne(Steps(feed, consumer), s, Deliver(result), s');
    if s'.sys.phase.Delivering? {
      DeliverStaysAlong(feed, consumer, s', writes);
      Runs.AlongTrans(Steps(feed, consumer), s, s', DeliverRest(s', writes).0);
    }
  }

  /** The number of cdc_commit calls that returned. */
  function Commits(log: seq<Action>): nat {
    if log == [] then 0
    else
      var last := log[|log| - 1];
      Commits(log[..|log| - 1]) + if last.CdcCommit? && last.reply.Committed? then 1 else 0
  }

  lemma CommitsAppend(log: seq<Action>, a: Action)
    ensures Commits(log + [a]) == Commits(log) + if a.CdcCommit? && a.reply.Committed? then 1 else 0
  {
    assert (log + [a])[..|log|] == log;
  }

  lemma {:induction false} DeliverCommitsNothing(s: Session, writes: nat -> WriteResult)
    requires s.sys.phase.Delivering? && s.sys.phase.next < |s.sys.sinks|
    ensures Commits(DeliverRest(s, writes).0.log) == Commits(s.log)
    decreases |s.sys.sinks| - s.sys.phase.next
  {
    var result := writes(s.sys.phase.next);
    var s' := Write(s, result);
    CommitsAppend(s.log, Deliver(result));
    if s'.sys.phase.Delivering? {
      DeliverCommitsNothing(s', writes);
    }
  }

  /** The commit's tries follow the protocol; a returned value is exactly one returned cdc_commit. */
  lemma {:induction false} CommitStaysAlong(
    feed: seq<Event>, consumer: string, replies: nat -> CommitResult, s: Session, k: nat, left: nat)
    requires left >= 1 && s.sys.phase.Acked?
    ensures var r := RetryFrom(CommitBatch(replies), s, k, left);
            && Along(feed, consumer, s, r.state)
            && (r.outcome.Returned? ==> r.state.sys.phase == Idle && r.state.sys.cursor == s.sys.phase.batch.end)
            && Commits(r.state.log) == Commits(s.log) + if r.outcome.Returned? then 1 else 0
    decreases left
  {
    var (s', o) := CommitBatch(replies)(k, s);
    assert (s', o) == CommitOnce(replies, k, s);
    Runs.AlongOne(Steps(feed, consumer), s, CdcCommit(replies(k)), s');
    CommitsAppend(s.log, CdcCommit(replies(k)));
    if !(Decisive(o) || left == 1) {
      CommitStaysAlong(feed, consumer, replies, s', k + 1, left - 1);
      Runs.AlongTrans(Steps(feed, consumer), s, s', RetryFrom(CommitBatch(replies), s', k + 1, left - 1).state);
    }
  }

  lemma CommitAllStaysAlong(feed: seq<Event>, consumer: string, s: Session, replies: nat -> CommitResult)
    requires s.sys.phase.Acked?
    ensures var (s', o) := CommitAll(s, replies);
            && Along(feed, consumer, s, s')
            && s'.sys.phase == Idle
            && (o.Returned? ==> s'.sys.cursor == s.sys.phase.batch.end)
            && Commits(s'.log) == Commits(s.log) + if o.Returned? then 1 else 0
  {
    var commit := RetryFrom(CommitBatch(replies), s, 0, MAX_ATTEMPTS);
    CommitStaysAlong(feed, consumer, replies, s, 0, MAX_ATTEMPTS);
    Runs.AlongOne(Steps(feed, consumer), commit.state, Leave, LeftWith(commit.state));
    Runs.AlongTrans(Steps(feed, consumer), s, commit.state, LeftWith(commit.state));
    CommitsAppend(commit.state.log, Leave);
  }

  lemma HandledStaysAlong(feed: seq<Event>, consumer: string, s: Session, p: RunPoll)
    requires s.sys.phase.Delivering? && s.sys.phase.next < |s.sys.sinks|
    ensures var (s', o) := Handled(s, p);
            && Along(feed, consumer, s, s')
            && s'.sys.phase == Idle
            && (o.Returned? ==> s'.sys.cursor == s.sys.phase.batch.end)
            && Commits(s'.log) == Commits(s.log) + if o.Returned? then 1 else 0
  {
    var (s1, delivered) := DeliverRest(s, p.writes);
    DeliverStaysAlong(feed, consumer, s, p.writes);
    DeliverCommitsNothing(s, p.writes);
    if delivered.Returned? {
      CommitAllStaysAlong(feed, consumer, s1, p.commits);
      Runs.AlongTrans(Steps(feed, consumer), s, s1, CommitAll(s1, p.commits).0);
    }
  }

  /** Listening follows the protocol and commits nothing; a batch, if any, waits for the first sink. */
  lemma ListenStaysAlong(feed: seq<Event>, consumer: string, start: int, s: Session, requested: int, p: RunPoll)
    requires Ordered(feed) && Invariant(feed, start, s.sys) && s.sys.phase == Idle && s.sys.sinks != []
    ensures var s2 := Polled(Advanced(s, p), feed, consumer, requested, p);
            && Along(feed, consumer, s, s2)
            && Commits(s2.log) == Commits(s.log)
            && s2.sys.sinks == s.sys.sinks
            && s2.log[|s2.log| - 1].Listen?
            && var rows := s2.log[|s2.log| - 1].rows;
               s2.sys.phase == if rows == [] then Idle else Delivering(BuildBatch(consumer, rows), 0)
  {
    var s1 := Advanced(s, p);
    Runs.AlongOne(Steps(feed, consumer), s, Advance(s1.sys.head), s1);
    CommitsAppend(s.log, Advance(s1.sys.head));
    var e := WindowEnd(s1.sys, requested, p);
    var rows := Batches.Reply(feed, s1.sys.cursor, e, p.stamps);
    var s2 := Polled(s1, feed, consumer, requested, p);
    Runs.AlongOne(Steps(feed, consumer), s1, Listen(requested, e, rows), s2);
    CommitsAppend(s1.log, Listen(requested, e, rows));
    Runs.AlongTrans(Steps(feed, consumer), s, s1, s2);
  }

  lemma PassStaysAlong(feed: seq<Event>, consumer: string, start: int, o: Loop.Options, st: Loop.State,
                       s: Session, p: RunPoll)
    requires Ordered(feed) && Invariant(feed, start, s.sys) && s.sys.phase == Idle
    requires Loop.Sound(o, st) && s.sys.sinks != [] && !p.stopBefore && p.listenFailure.None?
    ensures var r := RunPass(feed, consumer, o, st, s, p);
            && Along(feed, consumer, s, r.session)
            && r.session.sys.phase == Idle
            && Commits(r.session.log) == Commits(s.log) + r.Delivered()
  {
    ListenStaysAlong(feed, consumer, start, s, Loop.Requested(o, st), p);
    var s2 := AfterListen(feed, consumer, o, st, s, p);
    var r := RunPass(feed, consumer, o, st, s, p);
    if s2.sys.phase.Delivering? {
      HandledStaysAlong(feed, consumer, s2, p);
      Runs.AlongTrans(Steps(feed, consumer), s, s2, Handled(s2, p).0);
      assert r.pass.batch.Some? && (r.session, r.outcome) == Handled(s2, p);
    } else {
      assert r.pass.batch.None? && r.session == s2;
    }
  }

  /**
   One pass of run() is a run of the protocol, so everything proved about the protocol holds of it; and a
   batch counts as delivered exactly when its cdc_commit returned.
   */
  lemma PassFollowsProtocol(feed: seq<Event>, consumer: string, start: int, o: Loop.Options, st: Loop.State,
                            s: Session, p: RunPoll)
    requires Ordered(feed) && Invariant(feed, start, s.sys) && s.sys.phase == Idle
    requires Loop.Sound(o, st) && s.sys.sinks != []
    ensures var r := RunPass(feed, consumer, o, st, s, p);
            && Along(feed, consumer, s, r.session)
            && Invariant(feed, start, r.session.sys)
            && r.session.sys.phase == Idle
            && Commits(r.session.log) == Commits(s.log) + r.Delivered()
  {
    if p.stopBefore || p.listenFailure.Some? {
      Runs.AlongSelf(Steps(feed, consumer), s);
    } else {
      PassStaysAlong(feed, consumer, start, o, st, s, p);
      RunKeepsInvariant(feed, consumer, start, s.sys, Runs.Since(s, RunPass(feed, consumer, o, st, s, p).session));
    }
  }

  /**
   run() is a run of the delivery protocol.  Its result is the number of cdc_commit calls that returned, and
   on a normal return that is also the number of batches yielded.
   */
  lemma {:induction false} RunFollowsProtocol(
    feed: seq<Event>, consumer: string, start: int, o: Loop.Options, st: Loop.State, s: Session,
    polls: seq<RunPoll>)
    requires Ordered(feed) && Invariant(feed, start, s.sys) && s.sys.phase == Idle
    requires Loop.Sound(o, st) && s.sys.sinks != []
    ensures var r := RunLoop(feed, consumer, o, st, s, polls);
            && Along(feed, consumer, s, r.session)
            && Invariant(feed, start, r.session.sys)
            && r.session.sys.phase == Idle
            && Commits(r.session.log) == Commits(s.log) + r.delivered
            && r.delivered <= |r.yielded| <= r.delivered + 1
            && (r.exit.None? || r.exit.value.Finished? ==> |r.yielded| == r.delivered)
    decreases polls
  {
    if polls == [] {
      Runs.AlongSelf(Steps(feed, consumer), s);
    } else {
      PassFollowsProtocol(feed, consumer, start, o, st, s, polls[0]);
      var r := RunPass(feed, consumer, o, st, s, polls[0]);
      if r.Exit().None? {
        RunFollowsProtocol(feed, consumer, start, o, r.pass.state, r.session, polls[1..]);
        Runs.AlongTrans(Steps(feed, consumer), s, r.session,
                   RunLoop(feed, consumer, o, r.pass.state, r.session, polls[1..]).session);
      }
    }
  }

  /** run()'s result is the number of commits that returned while it ran. */
  lemma RunCountsCommits(feed: seq<Event>, consumer: string, start: int, o: Loop.Options, now: int, s: Session,
                         polls: seq<RunPoll>)
    requires Ordered(feed) && Invariant(feed, start, s.sys) && s.sys.phase == Idle && s.sys.sinks != []
    ensures var r := RunLoop(feed, consumer, o, Loop.Start(o, now), s, polls);
            r.delivered == Commits(r.session.log) - Commits(s.log)
  {
    RunFollowsProtocol(feed, consumer, start, o, Loop.Start(o, now), s, polls);
  }

  /** The loop of batches() on one more poll in front. */
  lemma ExecCons(o: Loop.Options, consumer: string, st: Loop.State, p: Loop.Poll, rest: seq<Loop.Poll>)
    requires Loop.Sound(o, st)
    ensures var pass := Loop.Iterate(o, consumer, st, p);
            var now := if pass.batch.Some? then [pass.batch.value] else [];
            var tail := Loop.Exec(o, consumer, pass.state, rest);
            Loop.Exec(o, consumer, st, [p] + rest)
            == if pass.exit.Some? then Loop.Execution(now, pass.exit)
               else Loop.Execution(now + tail.batches, tail.exit)
  {
    assert ([p] + rest)[1..] == rest;
  }

  /** What run() yields is what the loop of batches() yields on the polls run() saw. */
  lemma {:induction false} RunIsTheLoop(
    feed: seq<Event>, consumer: string, o: Loop.Options, st: Loop.State, s: Session, polls: seq<RunPoll>)
    requires Loop.Sound(o, st) && s.sys.sinks != []
    ensures var r := RunLoop(feed, consumer, o, st, s, polls);
            var x := Loop.Exec(o, consumer, st, r.polls);
            && x.batches == r.yielded
            && (r.exit.Some? && r.exit.value.Finished? ==> x.exit == Some(r.exit.value.exit))
    decreases polls
  {
    if polls != [] {
      var r := RunPass(feed, consumer, o, st, s, polls[0]);
      if r.Exit().None? {
        var rest := RunLoop(feed, consumer, o, r.pass.state, r.session, polls[1..]);
        RunIsTheLoop(feed, consumer, o, r.pass.state, r.session, polls[1..]);
        ExecCons(o, consumer, st, r.poll, rest.polls);
      } else if r.Passed? {
        ExecCons(o, consumer, st, r.poll, []);
        assert r.Polls() == [r.poll] + [];
      }
    }
  }

  /** The polls of the loop are those of a first part of the schedule: the same events, and the same clock. */
  ghost predicate Observes(seen: seq<Loop.Poll>, polls: seq<RunPoll>) {
    && |seen| <= |polls|
    && forall i :: 0 <= i < |seen| ==>
         seen[i] == Loop.Poll(polls[i].stopBefore, seen[i].rows, polls[i].elapsedMs, polls[i].stopAfter, false,
                              polls[i].now)
  }

  lemma ObservesCons(lp: Loop.Poll, seen: seq<Loop.Poll>, polls: seq<RunPoll>)
    requires polls != [] && Observes([lp], polls) && Observes(seen, polls[1..])
    ensures Observes([lp] + seen, polls)
  {
    forall i | 0 < i < 1 + |seen|
      ensures var q := ([lp] + seen)[i];
              q == Loop.Poll(polls[i].stopBefore, q.rows, polls[i].elapsedMs, polls[i].stopAfter, false, polls[i].now)
    {
      assert ([lp] + seen)[i] == seen[i - 1] && polls[1..][i - 1] == polls[i];
    }
  }

  lemma {:induction false} RunObserves(
    feed: seq<Event>, consumer: string, o: Loop.Options, st: Loop.State, s: Session, polls: seq<RunPoll>)
    requires Loop.Sound(o, st) && s.sys.sinks != []
    ensures Observes(RunLoop(feed, consumer, o, st, s, polls).polls, polls)
    decreases polls
  {
    if polls != [] {
      var r := RunPass(feed, consumer, o, st, s, polls[0]);
      if r.Exit().None? {
        RunObserves(feed, consumer, o, r.pass.state, r.session, polls[1..]);
        ObservesCons(r.poll, RunLoop(feed, consumer, o, r.pass.state, r.session, polls[1..]).polls, polls);
      }
    }
  }

  predicate StopStays(polls: seq<RunPoll>) {
    && (forall i :: 0 <= i < |polls| ==> (polls[i].stopBefore ==> polls[i].stopAfter))
    && (forall i :: 0 < i < |polls| ==> (polls[i - 1].stopAfter ==> polls[i].stopBefore))
  }

  /**
   run(), from its first poll: the result within the caller's limits, and at most one batch yielded by a
   listen that ended after the stop event was set.
   */
  lemma RunAccounts(feed: seq<Event>, consumer: string, start: int, o: Loop.Options, now: int, s: Session,
                    polls: seq<RunPoll>)
    requires Ordered(feed) && Invariant(feed, start, s.sys) && s.sys.phase == Idle && s.sys.sinks != []
    ensures var r := RunLoop(feed, consumer, o, Loop.Start(o, now), s, polls);
            && Commits(r.session.log) == Commits(s.log) + r.delivered
            && (r.exit.Some? && r.exit.value.Finished? ==> r.delivered == |r.yielded|)
            && (!o.infinite ==> |r.yielded| <= 1)
            && (o.maxBatches > 0 ==> |r.yielded| <= o.maxBatches)
            && (StopStays(polls) ==> Loop.LateYields(o, consumer, Loop.Start(o, now), r.polls) <= 1)
  {
    var st := Loop.Start(o, now);
    var r := RunLoop(feed, consumer, o, st, s, polls);
    RunFollowsProtocol(feed, consumer, start, o, st, s, polls);
    RunIsTheLoop(feed, consumer, o, st, s, polls);
    Loop.YieldsWithinLimits(o, consumer, st, r.polls);
    if StopStays(polls) {
      RunObserves(feed, consumer, o, st, s, polls);
      Loop.StopYieldsAtMostOne(o, consumer, st, r.polls);
    }
  }

  /** The session is where the logged actions took a consumer that started fresh, and between batches. */
  ghost predicate Reached(feed: seq<Event>, consumer: string, start: int, head: int, required: seq<bool>, s: Session) {
    Delivery.Run(feed, consumer, Fresh(start, head, required), s.log) == Some(s.sys) && s.sys.phase == Idle
  }

  /** run() takes a reachable session to a reachable one, so what follows holds after any number of run() calls. */
  lemma RunStaysReached(feed: seq<Event>, consumer: string, start: int, head: int, required: seq<bool>,
                        s: Session, o: Loop.Options, now: int, polls: seq<RunPoll>)
    requires Ordered(feed) && start <= head && required != [] && Reached(feed, consumer, start, head, required, s)
    ensures s.sys.sinks != [] && Invariant(feed, start, s.sys)
    ensures Reached(feed, consumer, start, head, required,
                    RunLoop(feed, consumer, o, Loop.Start(o, now), s, polls).session)
  {
    var s0, st := Fresh(start, head, required), Loop.Start(o, now);
    FreshInvariant(feed, start, head, required);
    RunKeepsInvariant(feed, consumer, start, s0, s.log);
    SinksStay(feed, consumer, s0, s.log);
    RunFollowsProtocol(feed, consumer, start, o, st, s, polls);
    Runs.AlongExtends(Steps(feed, consumer), s0, s, RunLoop(feed, consumer, o, st, s, polls).session);
  }

  /**
   What run() promises its required sinks, for any number of run() calls on any schedules of failures, since
   the consumer was created: every row through the cursor was acknowledged by each of them and is in what it
   stored, and the sink folded by row identity is the feed through the cursor plus rows of the feed above it
   that were delivered and not committed.
   */
  lemma RunConverges(feed: seq<Event>, consumer: string, start: int, head: int, required: seq<bool>,
                     s: Session, o: Loop.Options, now: int, polls: seq<RunPoll>, i: nat)
    requires Ordered(feed) && start <= head && i < |required| && required[i]
    requires Reached(feed, consumer, start, head, required, s)
    ensures s.sys.sinks != []
    ensures var r := RunLoop(feed, consumer, o, Loop.Start(o, now), s, polls).session;
            var acknowledged := Acknowledged(feed, consumer, Fresh(start, head, required), r.log, i);
            && Reached(feed, consumer, start, head, required, r)
            && start <= r.sys.cursor <= r.sys.head && |r.sys.sinks| == |required|
            && (forall e :: e in Between(feed, start, r.sys.cursor) ==>
                  e in acknowledged && e in r.sys.sinks[i].log)
            && (DistinctKeys(feed) ==>
                  var uncommitted := Between(r.sys.sinks[i].log, r.sys.cursor, r.sys.head);
                  && Includes(Between(feed, r.sys.cursor, r.sys.head), uncommitted)
                  && Upserted(r.sys.sinks[i].log) == Upserted(Between(feed, start, r.sys.cursor) + uncommitted))
  {
    RunStaysReached(feed, consumer, start, head, required, s, o, now, polls);
    var r := RunLoop(feed, consumer, o, Loop.Start(o, now), s, polls).session;
    RequiredSinksGate(feed, consumer, start, head, required, r.log, i);
    if DistinctKeys(feed) {
      ReplayConverges(feed, consumer, start, head, required, r.log, i);
    }
  }
}
