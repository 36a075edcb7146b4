/**
 `batch.transaction()`: sink rows and the cursor advance in one database transaction.

 The first half is a statement-level model of a consumer that opens one transaction per listen, on a
 database that may fail any statement, with a process that may crash between any two.  The second half is
 BatchTransaction itself, statement by statement, shown to stay inside that model.
 */
module Transactions {
  import opened Prelude
  import opened Feed
  import opened Batches
  import opened Retry
  import Runs

  /** What survives a crash: the consumer's cursor and the sink table. */
  datatype Durable = Durable(cursor: int, table: seq<Event>)

  /** The open transaction, if any, sees and changes its own copy. */
  datatype Db = Db(durable: Durable, pending: Option<Durable>)

  datatype Statement = Begin | InsertRow(event: Event) | CdcCommit(snapshot: int) | Commit | Rollback

  /** What a failing statement did before it raised.  Only COMMIT and ROLLBACK can end the transaction. */
  datatype Effect = Nothing | Applied | Aborted

  datatype Reply = Ok | Failed(failure: Failure, effect: Effect)

  function Visible(db: Db): Durable { if db.pending.Some? then db.pending.value else db.durable }

  function Write(db: Db, d: Durable): Db {
    if db.pending.Some? then db.(pending := Some(d)) else db.(durable := d)
  }

  /** The statement cannot run in this state at all: BEGIN inside a transaction, COMMIT or ROLLBACK outside. */
  predicate Misplaced(db: Db, stmt: Statement) {
    match stmt
    case Begin => db.pending.Some?
    case Commit => db.pending.None?
    case Rollback => db.pending.None?
    case _ => false
  }

  const MISPLACED := Failure(["TransactionContext Error"], true)

  /** The reply the database gives: what it was going to say, unless the statement is misplaced. */
  function Settle(db: Db, stmt: Statement, reply: Reply): Reply {
    if Misplaced(db, stmt) then Failed(MISPLACED, Nothing) else reply
  }

  function Apply(db: Db, stmt: Statement, reply: Reply): Db {
    var applied := reply.Ok? || reply.effect.Applied?;
    match stmt
    case Begin => if applied && db.pending.None? then db.(pending := Some(db.durable)) else db
    case InsertRow(event) => if applied then Write(db, Visible(db).(table := Visible(db).table + [event])) else db
    case CdcCommit(snapshot) => if applied then Write(db, Visible(db).(cursor := snapshot)) else db
    case Commit =>
      if db.pending.None? then db
      else if applied then Db(db.pending.value, None)
      else if reply.effect.Aborted? then db.(pending := None)
      else db
    case Rollback => if applied || reply.effect.Aborted? then db.(pending := None) else db
  }

  // ------------------------------------------------------------------ the protocol

  /** Where the consumer's control is. */
  datatype Phase =
    | Idle                             // about to listen
    | Holding(batch: Batch)            // a batch was yielded; its transaction has not begun
    | Body(batch: Batch, done: nat)    // inside the `with` block, `done` rows written
    | Marked(batch: Batch)             // cdc_commit returned, COMMIT is next
    | Unwinding                        // an exception is on its way out, ROLLBACK is next

  /** The statement the consumer may issue in a phase, and the phase after its reply. */
  function Issue(p: Phase, stmt: Statement, reply: Reply): Option<Phase> {
    match (p, stmt)
    case (Holding(b), Begin) => Some(if reply.Ok? then Body(b, 0) else Idle)
    case (Body(b, k), InsertRow(event)) =>
      if k < |b.events| && event == b.events[k] then Some(if reply.Ok? then Body(b, k + 1) else Unwinding)
      else None
    case (Body(b, k), CdcCommit(snapshot)) =>
      if k != |b.events| || snapshot != b.end then None
      else if reply.Ok? then Some(Marked(b))
      else Some(p)
    case (Body(_, _), Rollback) => Some(Idle)
    case (Marked(_), Commit) => Some(if reply.Ok? then Idle else Unwinding)
    case (Unwinding, Rollback) => Some(Idle)
    case _ => None
  }

  datatype System = System(head: int, db: Db, phase: Phase)

  datatype Action =
    | Advance(head: int)                  // the producer commits more snapshots
    | Listen(e: int, rows: seq<Row>)      // a listen returns the window up to e
    | Exec(stmt: Statement, reply: Reply)
    | Leave                               // control leaves the block without another statement
    | Crash                               // the process or the connection dies; a new consumer starts

  ghost function Next(feed: seq<Event>, consumer: string, s: System, a: Action): Option<System> {
    match a
    case Advance(head) => if s.head <= head then Some(s.(head := head)) else None
    case Listen(e, rows) =>
      var c := Visible(s.db).cursor;
      if (s.phase.Idle? || s.phase.Holding?) && c <= e <= s.head && IsReply(feed, c, e, rows) then
        Some(s.(phase := if rows == [] then Idle else Holding(BuildBatch(consumer, rows))))
      else None
    case Exec(stmt, reply) =>
      if reply != Settle(s.db, stmt, reply) then None
      else
        var p := Issue(s.phase, stmt, reply);
        if p.None? then None else Some(System(s.head, Apply(s.db, stmt, reply), p.value))
    case Leave => Some(s.(phase := Idle))
    case Crash => Some(System(s.head, s.db.(pending := None), Idle))
  }

  ghost function Steps(feed: seq<Event>, consumer: string): (System, Action) -> Option<System> {
    (s, a) => Next(feed, consumer, s, a)
  }

  ghost function Run(feed: seq<Event>, consumer: string, s: System, actions: seq<Action>): Option<System> {
    Runs.Run(Steps(feed, consumer), s, actions)
  }

  /** A consumer created at `start`, with an empty sink table. */
  function Initial(start: int, head: int): System { System(head, Db(Durable(start, []), None), Idle) }

  /** The batch continues the durable cursor. */
  ghost predicate Continues(feed: seq<Event>, s: System, b: Batch) {
    && s.db.durable.cursor < b.end <= s.head
    && b.events == Between(feed, s.db.durable.cursor, b.end)
  }

  ghost predicate Invariant(feed: seq<Event>, start: int, s: System) {
    var d := s.db.durable;
    && start <= d.cursor <= s.head
    && d.table == Between(feed, start, d.cursor)
    && match s.phase
       case Idle => true
       case Unwinding => true
       case Holding(b) => s.db.pending.None? ==> Continues(feed, s, b)
       case Body(b, k) =>
         && Continues(feed, s, b)
         && k <= |b.events|
         && s.db.pending.Some?
         && s.db.pending.value.table == d.table + b.events[..k]
       case Marked(b) =>
         && Continues(feed, s, b)
         && s.db.pending == Some(Durable(b.end, d.table + b.events))
  }

  lemma ListenKeepsInvariant(feed: seq<Event>, consumer: string, start: int, s: System, e: int, rows: seq<Row>)
    requires Ordered(feed) && Invariant(feed, start, s) && Next(feed, consumer, s, Listen(e, rows)).Some?
    ensures Invariant(feed, start, Next(feed, consumer, s, Listen(e, rows)).value)
  {
    if rows != [] {
      CommitBoundary(consumer, feed, Visible(s.db).cursor, e, rows);
    }
  }

  /** Inside the `with` block nothing durable changes. */
  lemma BodyKeepsInvariant(feed: seq<Event>, consumer: string, start: int, s: System, stmt: Statement, reply: Reply)
    requires Invariant(feed, start, s) && s.phase.Body?
    requires Next(feed, consumer, s, Exec(stmt, reply)).Some?
    ensures Invariant(feed, start, Next(feed, consumer, s, Exec(stmt, reply)).value)
    ensures Next(feed, consumer, s, Exec(stmt, reply)).value.db.durable == s.db.durable
  {
    var rows, k := s.phase.batch.events, s.phase.done;
    if k < |rows| {
      assert s.db.durable.table + rows[..k + 1] == s.db.durable.table + rows[..k] + [rows[k]];
    }
    assert rows[..|rows|] == rows;
  }

  /** COMMIT after a returned cdc_commit: the durable state stays, or moves by exactly the batch. */
  lemma CommitKeepsInvariant(feed: seq<Event>, consumer: string, start: int, s: System, stmt: Statement, reply: Reply)
    requires Ordered(feed) && Invariant(feed, start, s) && s.phase.Marked?
    requires Next(feed, consumer, s, Exec(stmt, reply)).Some?
    ensures Invariant(feed, start, Next(feed, consumer, s, Exec(stmt, reply)).value)
    ensures var d, d', b := s.db.durable, Next(feed, consumer, s, Exec(stmt, reply)).value.db.durable, s.phase.batch;
            stmt == Commit && (d' == d || d' == Durable(b.end, d.table + b.events)) && d.cursor < b.end
  {
    BetweenSplits(feed, start, s.db.durable.cursor, s.phase.batch.end);
  }

  /** BEGIN and ROLLBACK outside the block touch only the pending copy. */
  lemma OutsideKeepsInvariant(feed: seq<Event>, consumer: string, start: int, s: System, stmt: Statement, reply: Reply)
    requires Invariant(feed, start, s) && !s.phase.Marked? && !s.phase.Body?
    requires Next(feed, consumer, s, Exec(stmt, reply)).Some?
    ensures Invariant(feed, start, Next(feed, consumer, s, Exec(stmt, reply)).value)
    ensures Next(feed, consumer, s, Exec(stmt, reply)).value.db.durable == s.db.durable
  {
    if s.phase.Holding? {
      assert s.phase.batch.events[..0] == [];
    }
  }

  /**
   One step.  Beside keeping the invariant: only a COMMIT that follows a returned cdc_commit moves anything
   durable, and it moves exactly one whole batch.
   */
  lemma StepKeepsInvariant(feed: seq<Event>, consumer: string, start: int, s: System, a: Action)
    requires Ordered(feed) && Invariant(feed, start, s) && Next(feed, consumer, s, a).Some?
    ensures Invariant(feed, start, Next(feed, consumer, s, a).value)
    ensures var d, d' := s.db.durable, Next(feed, consumer, s, a).value.db.durable;
            && d.cursor <= d'.cursor
            && d.table <= d'.table
            && (d' == d || (s.phase.Marked? && a.Exec? && a.stmt.Commit?
                            && d' == Durable(s.phase.batch.end, d.table + s.phase.batch.events)))
  {
    match a
    case Advance(_) =>
    case Listen(e, rows) => ListenKeepsInvariant(feed, consumer, start, s, e, rows);
    case Exec(stmt, reply) =>
      if s.phase.Body? {
        BodyKeepsInvariant(feed, consumer, start, s, stmt, reply);
      } else if s.phase.Marked? {
        CommitKeepsInvariant(feed, consumer, start, s, stmt, reply);
      } else {
        OutsideKeepsInvariant(feed, consumer, start, s, stmt, reply);
      }
    case Leave =>
    case Crash =>
  }

  /** The invariant holds along every run, the cursor never goes back and written rows are never taken away. */
  lemma {:induction false} RunKeepsInvariant(
    feed: seq<Event>, consumer: string, start: int, s: System, actions: seq<Action>)
    requires Ordered(feed) && Invariant(feed, start, s) && Run(feed, consumer, s, actions).Some?
    ensures Invariant(feed, start, Run(feed, consumer, s, actions).value)
    ensures s.db.durable.cursor <= Run(feed, consumer, s, actions).value.db.durable.cursor
    ensures s.db.durable.table <= Run(feed, consumer, s, actions).value.db.durable.table
    decreases actions
  {
    if actions != [] {
      StepKeepsInvariant(feed, consumer, start, s, actions[0]);
      RunKeepsInvariant(feed, consumer, start, Next(feed, consumer, s, actions[0]).value, actions[1..]);
    }
  }

  /**
   Exactly once.  After any interleaving of appends, listens of any window size, one transaction per
   listen, failing statements, retries, crashes and restarts, the durable sink table is exactly the feed
   from the start position through the durable cursor, in order and without repeats.
   */
  lemma ExactlyOnce(feed: seq<Event>, consumer: string, start: int, head: int, actions: seq<Action>)
    requires Ordered(feed) && start <= head
    requires Run(feed, consumer, Initial(start, head), actions).Some?
    ensures var s := Run(feed, consumer, Initial(start, head), actions).value;
            && start <= s.db.durable.cursor <= s.head
            && s.db.durable.table == Between(feed, start, s.db.durable.cursor)
  {
    BetweenIsSlice(feed, start, start);
    RunKeepsInvariant(feed, consumer, start, Initial(start, head), actions);
  }

  // ------------------------------------------------------------------ recovery

  /** The statements of a `with` block in which nothing fails, from row k on. */
  function CleanBlock(b: Batch, k: nat): seq<Action>
    requires k <= |b.events|
    decreases |b.events| - k
  {
    if k == |b.events| then [Exec(CdcCommit(b.end), Ok), Exec(Commit, Ok)]
    else [Exec(InsertRow(b.events[k]), Ok)] + CleanBlock(b, k + 1)
  }

  lemma {:induction false} CleanBlockCommits(
    feed: seq<Event>, consumer: string, head: int, d: Durable, table: seq<Event>, b: Batch, k: nat)
    requires k <= |b.events|
    ensures Run(feed, consumer, System(head, Db(d, Some(Durable(d.cursor, table))), Body(b, k)), CleanBlock(b, k))
            == Some(System(head, Db(Durable(b.end, table + b.events[k..]), None), Idle))
    decreases |b.events| - k
  {
    var s := System(head, Db(d, Some(Durable(d.cursor, table))), Body(b, k));
    if k == |b.events| {
      var marked := System(head, Db(d, Some(Durable(b.end, table))), Marked(b));
      Runs.Cons(Steps(feed, consumer), s, Exec(CdcCommit(b.end), Ok), [Exec(Commit, Ok)]);
      Runs.Cons(Steps(feed, consumer), marked, Exec(Commit, Ok), []);
      assert table + b.events[k..] == table;
    } else {
      Runs.Cons(Steps(feed, consumer), s, Exec(InsertRow(b.events[k]), Ok), CleanBlock(b, k + 1));
      CleanBlockCommits(feed, consumer, head, d, table + [b.events[k]], b, k + 1);
      assert table + [b.events[k]] + b.events[k + 1..] == table + b.events[k..];
    }
  }

  /**
   A transaction on a batch that was listened at cursor c, when the durable cursor has reached d.cursor since:
   it commits without complaint, and the table is exactly-once exactly when the feed has no row between c and
   the durable cursor.  So a second transaction on a batch whose COMMIT took effect writes its rows twice.
   */
  lemma SecondTransaction(feed: seq<Event>, start: int, head: int, d: Durable, c: int, b: Batch)
    requires Ordered(feed) && start <= c <= d.cursor && d.table == Between(feed, start, d.cursor)
    requires c < b.end && b.events == Between(feed, c, b.end)
    ensures Run(feed, b.consumer, System(head, Db(d, None), Holding(b)), [Exec(Begin, Ok)] + CleanBlock(b, 0))
            == Some(System(head, Db(Durable(b.end, d.table + b.events), None), Idle))
    ensures d.table + b.events == Between(feed, start, b.end) <==> Between(feed, c, d.cursor) == []
  {
    Runs.Cons(Steps(feed, b.consumer), System(head, Db(d, None), Holding(b)), Exec(Begin, Ok), CleanBlock(b, 0));
    CleanBlockCommits(feed, b.consumer, head, d, d.table, b, 0);
    assert b.events[0..] == b.events;
    BetweenSplits(feed, start, c, d.cursor);
    BetweenSplits(feed, start, c, b.end);
    var first, again := Between(feed, start, c), Between(feed, c, d.cursor);
    assert |d.table + b.events| == |first| + |again| + |b.events|;
    assert again == [] ==> d.table == first;
  }

  /** A restart and one round in which nothing fails, over everything the producer has committed. */
  function Recovery(feed: seq<Event>, consumer: string, s: System): seq<Action> {
    var rows := Batches.Reply(feed, s.db.durable.cursor, s.head, []);
    [Crash] + ([Listen(s.head, rows)]
               + if rows == [] then [] else [Exec(Begin, Ok)] + CleanBlock(BuildBatch(consumer, rows), 0))
  }

  /** No reachable state is stuck: from each one, a restart and one clean round deliver all that is left. */
  lemma RecoveryCatchesUp(feed: seq<Event>, consumer: string, start: int, s: System)
    requires Ordered(feed) && Invariant(feed, start, s)
    ensures var r := Run(feed, consumer, s, Recovery(feed, consumer, s));
            r.Some? && r.value.head == s.head && r.value.db.durable.table == Between(feed, start, s.head)
  {
    var d := s.db.durable;
    var rows := Batches.Reply(feed, d.cursor, s.head, []);
    BetweenSplits(feed, start, d.cursor, s.head);
    if rows == [] {
      var restarted := System(s.head, Db(d, None), Idle);
      Runs.Cons(Steps(feed, consumer), s, Crash, [Listen(s.head, rows)] + []);
      Runs.Cons(Steps(feed, consumer), restarted, Listen(s.head, rows), []);
      assert |Events(rows)| == 0;
    } else {
      RecoveryRound(feed, consumer, s, rows);
    }
  }

  /** The round of the recovery that has something to deliver. */
  lemma RecoveryRound(feed: seq<Event>, consumer: string, s: System, rows: seq<Row>)
    requires Ordered(feed) && s.db.durable.cursor <= s.head
    requires rows != [] && IsReply(feed, s.db.durable.cursor, s.head, rows)
    ensures var d, b := s.db.durable, BuildBatch(consumer, rows);
            Run(feed, consumer, s, [Crash] + ([Listen(s.head, rows)] + ([Exec(Begin, Ok)] + CleanBlock(b, 0))))
            == Some(System(s.head, Db(Durable(b.end, d.table + Between(feed, d.cursor, s.head)), None), Idle))
  {
    var d, b := s.db.durable, BuildBatch(consumer, rows);
    var restarted, block := System(s.head, Db(d, None), Idle), [Exec(Begin, Ok)] + CleanBlock(b, 0);
    CommitBoundary(consumer, feed, d.cursor, s.head, rows);
    Runs.Cons(Steps(feed, consumer), s, Crash, [Listen(s.head, rows)] + block);
    Runs.Cons(Steps(feed, consumer), restarted, Listen(s.head, rows), block);
    Runs.Cons(Steps(feed, consumer), restarted.(phase := Holding(b)), Exec(Begin, Ok), CleanBlock(b, 0));
    CleanBlockCommits(feed, consumer, s.head, d, d.table, b, 0);
    assert b.events[0..] == b.events == Between(feed, d.cursor, s.head);
  }

  // ------------------------------------------------------------------ BatchTransaction

  /** A connection's history: the database it talks to, the statements sent and the replies received. */
  datatype Session = Session(db: Db, log: seq<Action>)

  /** The database's future: its reply to the n-th statement, if the statement is not misplaced. */
  type Replies = nat -> Reply

  function Send(replies: Replies, s: Session, stmt: Statement): (Session, Outcome<()>) {
    var reply := Settle(s.db, stmt, replies(|s.log|));
    (Session(Apply(s.db, stmt, reply), s.log + [Exec(stmt, reply)]),
     if reply.Ok? then Returned(()) else Raised(reply.failure))
  }

  class Connection {
    const replies: Replies
    var session: Session

    constructor (replies: Replies, db: Db)
      ensures this.replies == replies && session == Session(db, [])
    {
      this.replies := replies;
      session := Session(db, []);
    }

    method Execute(stmt: Statement) returns (outcome: Outcome<()>)
      modifies this
      ensures (session, outcome) == Send(replies, old(session), stmt)
    {
      var (after, result) := Send(replies, session, stmt);
      session, outcome := after, result;
    }
  }

  /** One try of cdc_commit inside the transaction. */
  function CommitWithin(replies: Replies, snapshot: int): Operation<Session, ()> {
    (k: nat, s: Session) => Send(replies, s, CdcCommit(snapshot))
  }

  /** ROLLBACK while something is being raised: its own Exception is swallowed, anything else takes over. */
  function RolledBack(replies: Replies, s: Session, raising: Outcome<()>): (Session, Outcome<()>) {
    var (s', o) := Send(replies, s, Rollback);
    (s', if o.Raised? && !o.failure.isException then o else raising)
  }

  /**
   What leaving the `with` block does to the session, and the exception it raises, if any.  After the body
   raised, returning lets the body's exception propagate.
   */
  function Exited(replies: Replies, s: Session, end: int, attempts: nat, raised: bool): (Session, Outcome<()>)
    requires attempts >= 1
  {
    if raised then RolledBack(replies, s, Returned(()))
    else
      var commit := RetryFrom(CommitWithin(replies, end), s, 0, attempts);
      var (s', o) :=
        if commit.outcome.Raised? then (commit.state, commit.outcome) else Send(replies, commit.state, Commit);
      if o.Raised? && o.failure.isException then RolledBack(replies, s', o) else (s', o)
  }

  datatype TxState = Fresh | Open | Closed

  class BatchTransaction {
    const conn: Connection
    const endSnapshot: int
    const attempts: nat
    var state: TxState

    constructor (conn: Connection, endSnapshot: int, attempts: nat)
      ensures this.conn == conn && this.endSnapshot == endSnapshot && this.attempts == attempts
      ensures state == Fresh
    {
      this.conn := conn;
      this.endSnapshot := endSnapshot;
      this.attempts := attempts;
      state := Fresh;
    }

    /** Single use: BEGIN is sent only by a fresh transaction, which opens only when BEGIN returned. */
    method Enter() returns (outcome: Outcome<()>)
      modifies this, conn
      ensures old(state) != Fresh ==> outcome.Raised? && state == old(state) && conn.session == old(conn.session)
      ensures old(state) == Fresh ==>
                && (conn.session, outcome) == Send(conn.replies, old(conn.session), Begin)
                && state == if outcome.Returned? then Open else Fresh
    {
      if state != Fresh {
        return Raised(Failure(["BatchTransaction is single-use"], true));
      }
      outcome := conn.Execute(Begin);
      if outcome.Returned? {
        state := Open;
      }
    }

    /** Any statement, sent as it is: the transaction object does not look at what it is asked to run. */
    method Execute(stmt: Statement) returns (outcome: Outcome<()>)
      modifies conn
      ensures (conn.session, outcome) == Send(conn.replies, old(conn.session), stmt)
    {
      outcome := conn.Execute(stmt);
    }

    method Exit(raised: bool) returns (outcome: Outcome<()>)
      requires attempts >= 1
      modifies this, conn
      ensures state == Closed
      ensures (conn.session, outcome)
              == Exited(conn.replies, old(conn.session), endSnapshot, attempts, raised)
    {
      state := Closed;
      if raised {
        var rolledBack := conn.Execute(Rollback);
        if rolledBack.Raised? && !rolledBack.failure.isException {
          return rolledBack;
        }
        return Returned(());
      }
      var retried, _ := RetryOnTransient(CommitWithin(conn.replies, endSnapshot), conn.session, attempts);
      conn.session := retried.value.state;
      outcome := retried.value.outcome;
      if outcome.Returned? {
        outcome := conn.Execute(Commit);
      }
      if outcome.Raised? && outcome.failure.isException {
        var rolledBack := conn.Execute(Rollback);
        if rolledBack.Raised? && !rolledBack.failure.isException {
          outcome := rolledBack;
        }
      }
    }
  }

  /**
   Leaving the block never leaves its transaction open by itself.  A normal return has ended it; after any
   Exception, the body's or the exit's own, ROLLBACK is the last statement sent, and the transaction stays
   open only if that ROLLBACK failed without effect.
   */
  lemma ExitEndsTransaction(replies: Replies, s: Session, end: int, attempts: nat, raised: bool)
    requires attempts >= 1
    ensures var (s', o) := Exited(replies, s, end, attempts, raised);
            && (!raised && o.Returned? ==> s'.db.pending == None)
            && (raised || (o.Raised? && o.failure.isException) ==>
                  && s'.log != []
                  && var last := s'.log[|s'.log| - 1];
                     && last.Exec? && last.stmt == Rollback
                     && (s'.db.pending.Some? ==> last.reply.Failed? && last.reply.effect == Nothing))
  {
    var commit := RetryFrom(CommitWithin(replies, end), s, 0, attempts);
    if !raised && commit.outcome.Returned? {
      var (s', o) := Send(replies, commit.state, Commit);
      assert o.Returned? ==> s'.db.pending == None;
    }
  }

  // ------------------------------------------------------------------ the code stays inside the protocol

  /** The protocol's view of a session whose control is in a phase. */
  function At(head: int, s: Session, p: Phase): Runs.Traced<System, Action> {
    Runs.Traced(System(head, s.db, p), s.log)
  }

  /** The session moved from one to the other along the protocol, from one phase to another. */
  ghost predicate Along(feed: seq<Event>, consumer: string, head: int, before: Session, p: Phase,
                        after: Session, q: Phase) {
    Runs.Along(Steps(feed, consumer), At(head, before, p), At(head, after, q))
  }

  lemma AlongTrans(feed: seq<Event>, consumer: string, head: int, a: Session, p: Phase,
                   b: Session, q: Phase, c: Session, r: Phase)
    requires Along(feed, consumer, head, a, p, b, q) && Along(feed, consumer, head, b, q, c, r)
    ensures Along(feed, consumer, head, a, p, c, r)
  {
    Runs.AlongTrans(Steps(feed, consumer), At(head, a, p), At(head, b, q), At(head, c, r));
  }

  lemma AlongKeepsInvariant(feed: seq<Event>, consumer: string, start: int, head: int, a: Session, p: Phase,
                            b: Session, q: Phase)
    requires Along(feed, consumer, head, a, p, b, q)
    requires Ordered(feed) && Invariant(feed, start, System(head, a.db, p))
    ensures Invariant(feed, start, System(head, b.db, q))
  {
    RunKeepsInvariant(feed, consumer, start, System(head, a.db, p), Runs.Since(At(head, a, p), At(head, b, q)));
  }

  lemma AlongOne(feed: seq<Event>, consumer: string, head: int, replies: Replies, s: Session, p: Phase,
                 stmt: Statement)
    requires Issue(p, stmt, Settle(s.db, stmt, replies(|s.log|))).Some?
    ensures Along(feed, consumer, head, s, p, Send(replies, s, stmt).0,
                  Issue(p, stmt, Settle(s.db, stmt, replies(|s.log|))).value)
  {
    var reply := Settle(s.db, stmt, replies(|s.log|));
    Runs.AlongOne(Steps(feed, consumer), At(head, s, p), Exec(stmt, reply),
                  At(head, Send(replies, s, stmt).0, Issue(p, stmt, reply).value));
  }

  /** Any number of cdc_commit tries, in the `with` block whose rows are all written. */
  lemma {:induction false} RetriesStayAlong(
    feed: seq<Event>, consumer: string, head: int, replies: Replies, b: Batch, s: Session, k: nat, left: nat)
    requires left >= 1
    ensures var r := RetryFrom(CommitWithin(replies, b.end), s, k, left);
            Along(feed, consumer, head, s, Body(b, |b.events|), r.state,
                  if r.outcome.Returned? then Marked(b) else Body(b, |b.events|))
    decreases left
  {
    var op := CommitWithin(replies, b.end);
    var p := Body(b, |b.events|);
    var (s', o) := op(k, s);
    AlongOne(feed, consumer, head, replies, s, p, CdcCommit(b.end));
    if !(Decisive(o) || left == 1) {
      RetriesStayAlong(feed, consumer, head, replies, b, s', k + 1, left - 1);
      var r := RetryFrom(op, s', k + 1, left - 1);
      AlongTrans(feed, consumer, head, s, p, s', p, r.state,
                 if r.outcome.Returned? then Marked(b) else p);
    }
  }

  /** Where the normal exit leaves control. */
  function ExitPhase(replies: Replies, s: Session, b: Batch, attempts: nat): Phase
    requires attempts >= 1
  {
    var commit := RetryFrom(CommitWithin(replies, b.end), s, 0, attempts);
    if commit.outcome.Raised? then
      if commit.outcome.failure.isException then Idle else Body(b, |b.events|)
    else
      var o := Send(replies, commit.state, Commit).1;
      if o.Returned? || o.failure.isException then Idle else Unwinding
  }

  /** What one returned cdc_commit does to the database. */
  function CursorMoved(snapshot: int): Db -> Db {
    (db: Db) => Apply(db, CdcCommit(snapshot), Ok)
  }

  /**
   However often cdc_commit is retried, on whichever connection: when it returns, the database is what one
   returned try leaves, and when it raises, that or what it was before.
   */
  lemma RetriedCommitIsOneCommit(replies: Replies, end: int, s: Session, attempts: nat)
    requires attempts >= 1
    ensures var r := RetryFrom(CommitWithin(replies, end), s, 0, attempts);
            && (r.outcome.Returned? ==> r.state.db == Apply(s.db, CdcCommit(end), Ok))
            && (r.state.db == s.db || r.state.db == Apply(s.db, CdcCommit(end), Ok))
            && |s.log| < |r.state.log| <= |s.log| + attempts
  {
    var op, view, effect := CommitWithin(replies, end), (s: Session) => s.db, CursorMoved(end);
    assert Attempts(op, view, effect) by {
      forall k: nat, s: Session
        ensures var (s', o) := op(k, s);
                && (view(s') == view(s) || view(s') == effect(view(s)))
                && (o.Returned? ==> view(s') == effect(view(s)))
      {
        assert op(k, s) == Send(replies, s, CdcCommit(end));
      }
    }
    RetryIdempotent(op, view, effect, s.db, s, 0, attempts);
    var lost, last := TriesAreLogged(replies, end, s, 0, attempts);
  }

  // ------------------------------------------------------------------ what leaving the block raises

  function Answered(reply: Reply): Outcome<()> { if reply.Ok? then Returned(()) else Raised(reply.failure) }

  /** What the last statement other than ROLLBACK answered. */
  function LastAnswer(sent: seq<Action>): Outcome<()> {
    if sent == [] then Returned(())
    else
      var last := sent[|sent| - 1];
      if last.Exec? && last.stmt != Rollback then Answered(last.reply) else LastAnswer(sent[..|sent| - 1])
  }

  /** A statement was interrupted: it failed with something that is not an Exception. */
  predicate Interrupted(reply: Reply) { reply.Failed? && !reply.failure.isException }

  /**
   What the statements sent make of the block: what the last one other than ROLLBACK answered, unless a
   ROLLBACK after it was interrupted.
   */
  function Verdict(sent: seq<Action>): Outcome<()> {
    if sent != [] && sent[|sent| - 1].Exec? && sent[|sent| - 1].stmt == Rollback
       && Interrupted(sent[|sent| - 1].reply)
    then Raised(sent[|sent| - 1].reply.failure)
    else LastAnswer(sent)
  }

  predicate TransientReply(reply: Reply) { reply.Failed? && Transient(reply.failure) }

  predicate AllTransient(replies: seq<Reply>) {
    forall i :: 0 <= i < |replies| ==> TransientReply(replies[i])
  }

  /** The n replies from number `from` on. */
  function Upcoming(replies: Replies, from: nat, n: nat): seq<Reply> {
    seq(n, i requires 0 <= i < n => replies(from + i))
  }

  /** Tries of cdc_commit that got these replies. */
  function Tries(end: int, replies: seq<Reply>): seq<Action> {
    seq(|replies|, i requires 0 <= i < |replies| => Exec(CdcCommit(end), replies[i]))
  }

  /** One statement is sent for each try, and only the last one may be decisive. */
  lemma {:induction false} TriesAreLogged(replies: Replies, end: int, s: Session, k: nat, left: nat)
    returns (lost: seq<Reply>, last: Reply)
    requires left >= 1
    ensures var r := RetryFrom(CommitWithin(replies, end), s, k, left);
            && r.calls == k + |lost| + 1 <= k + left
            && lost == Upcoming(replies, |s.log|, |lost|) && last == replies(|s.log| + |lost|)
            && r.state.log == s.log + Tries(end, lost) + [Exec(CdcCommit(end), last)]
            && r.outcome == Answered(last)
    ensures AllTransient(lost) && (|lost| + 1 == left || !TransientReply(last))
    decreases left
  {
    var from := |s.log|;
    var (s', o) := CommitWithin(replies, end)(k, s);
    lost, last := [], replies(from);
    if !(Decisive(o) || left == 1) {
      var more, final := TriesAreLogged(replies, end, s', k + 1, left - 1);
      lost, last := [replies(from)] + more, final;
      assert Tries(end, lost) == [Exec(CdcCommit(end), replies(from))] + Tries(end, more);
      assert s.log + Tries(end, lost) == s'.log + Tries(end, more);
    }
  }

  /**
   After the body raised: one ROLLBACK is sent, whatever it answers, and an Exception of its own is not what
   the caller sees; the body's exception is, unless the ROLLBACK itself was interrupted.
   */
  lemma ExceptionalExit(replies: Replies, s: Session, end: int, attempts: nat) returns (rollback: Reply)
    requires attempts >= 1
    ensures var (s', o) := Exited(replies, s, end, attempts, true);
            && s'.log == s.log + [Exec(Rollback, rollback)]
            && (s.db.pending.Some? ==> rollback == replies(|s.log|))
            && o == if Interrupted(rollback) then Raised(rollback.failure) else Returned(())
  {
    rollback := Settle(s.db, Rollback, replies(|s.log|));
  }

  /** What is sent when the body returned: tries of cdc_commit, COMMIT after an answer, ROLLBACK after an Exception. */
  function ExitSends(end: int, lost: seq<Reply>, last: Reply, commit: Reply, rollback: Reply): seq<Action> {
    Tries(end, lost) + [Exec(CdcCommit(end), last)]
    + (if last.Ok? then [Exec(Commit, commit)] else [])
    + (if RaisesException(if last.Ok? then commit else last) then [Exec(Rollback, rollback)] else [])
  }

  predicate RaisesException(reply: Reply) { reply.Failed? && reply.failure.isException }

  /**
   After the body returned: the tries of cdc_commit, all but the last failing transiently; COMMIT exactly when
   the last one was answered; ROLLBACK exactly when an Exception came up.  What is raised is what the last
   cdc_commit or COMMIT raised, unless the ROLLBACK was interrupted.
   */
  lemma NormalExit(replies: Replies, s: Session, end: int, attempts: nat)
    returns (lost: seq<Reply>, last: Reply, commit: Reply, rollback: Reply)
    requires attempts >= 1
    ensures |lost| < attempts && AllTransient(lost) && (|lost| + 1 == attempts || !TransientReply(last))
    ensures lost == Upcoming(replies, |s.log|, |lost|) && last == replies(|s.log| + |lost|)
    ensures s.db.pending.Some? ==> commit == replies(|s.log| + |lost| + 1)
    ensures var (s', o) := Exited(replies, s, end, attempts, false);
            var decisive := if last.Ok? then commit else last;
            && s'.log == s.log + ExitSends(end, lost, last, commit, rollback)
            && o == if RaisesException(decisive) && Interrupted(rollback) then Raised(rollback.failure)
                    else Answered(decisive)
  {
    var r := RetryFrom(CommitWithin(replies, end), s, 0, attempts);
    lost, last := TriesAreLogged(replies, end, s, 0, attempts);
    RetriedCommitIsOneCommit(replies, end, s, attempts);
    commit := Settle(r.state.db, Commit, replies(|r.state.log|));
    var s1 := if r.outcome.Returned? then Send(replies, r.state, Commit).0 else r.state;
    rollback := Settle(s1.db, Rollback, replies(|s1.log|));
  }

  /** When nothing fails, the exit sends cdc_commit and COMMIT once each, returns, and the transaction is durable. */
  lemma CleanExit(replies: Replies, s: Session, end: int, attempts: nat)
    requires attempts >= 1 && s.db.pending.Some? && replies(|s.log|).Ok? && replies(|s.log| + 1).Ok?
    ensures Exited(replies, s, end, attempts, false)
            == (Session(Db(Durable(end, s.db.pending.value.table), None),
                        s.log + [Exec(CdcCommit(end), Ok), Exec(Commit, Ok)]),
                Returned(()))
  {
    var s1 := Send(replies, s, CdcCommit(end)).0;
    assert CommitWithin(replies, end)(0, s) == (s1, Returned(()));
    assert s1.log + [Exec(Commit, Ok)] == s.log + [Exec(CdcCommit(end), Ok), Exec(Commit, Ok)];
  }

  lemma LastAnswerAppend(sent: seq<Action>, stmt: Statement, reply: Reply)
    ensures LastAnswer(sent + [Exec(stmt, reply)])
            == if stmt == Rollback then LastAnswer(sent) else Answered(reply)
  {
    assert (sent + [Exec(stmt, reply)])[..|sent|] == sent;
  }

  lemma ExitSendsVerdict(sent: seq<Action>, end: int, lost: seq<Reply>, last: Reply, commit: Reply, rollback: Reply)
    ensures var decisive := if last.Ok? then commit else last;
            Verdict(sent + ExitSends(end, lost, last, commit, rollback))
            == if RaisesException(decisive) && Interrupted(rollback) then Raised(rollback.failure)
               else Answered(decisive)
  {
    var tried := sent + Tries(end, lost);
    var base := tried + [Exec(CdcCommit(end), last)];
    LastAnswerAppend(tried, CdcCommit(end), last);
    LastAnswerAppend(base, Commit, commit);
    var done := if last.Ok? then base + [Exec(Commit, commit)] else base;
    LastAnswerAppend(done, Rollback, rollback);
    var all := sent + ExitSends(end, lost, last, commit, rollback);
    var decisive := if last.Ok? then commit else last;
    assert all == if RaisesException(decisive) then done + [Exec(Rollback, rollback)] else done;
  }

  function SentSince(before: Session, after: Session): seq<Action>
    requires |before.log| <= |after.log|
  {
    after.log[|before.log|..]
  }

  lemma SentTwice(a: Session, b: Session, c: Session)
    requires a.log <= b.log <= c.log
    ensures SentSince(a, c) == SentSince(a, b) + SentSince(b, c)
  {
  }

  /** On the normal path the block raises what its statements make of it, whatever was sent before. */
  lemma NormalExitVerdict(replies: Replies, s: Session, end: int, attempts: nat, sent: seq<Action>)
    requires attempts >= 1
    ensures var (s', o) := Exited(replies, s, end, attempts, false);
            s.log <= s'.log && o == Verdict(sent + SentSince(s, s'))
  {
    var lost, last, commit, rollback := NormalExit(replies, s, end, attempts);
    ExitSendsVerdict(sent, end, lost, last, commit, rollback);
    var s' := Exited(replies, s, end, attempts, false).0;
    assert s'.log[|s.log|..] == ExitSends(end, lost, last, commit, rollback);
  }

  /** The normal exit follows the protocol, whatever fails, and returns only when the batch is committed. */
  lemma ExitStaysAlong(feed: seq<Event>, start: int, head: int, replies: Replies, b: Batch, s: Session,
                       attempts: nat)
    requires attempts >= 1
    requires Ordered(feed) && Invariant(feed, start, System(head, s.db, Body(b, |b.events|)))
    ensures var (s', o) := Exited(replies, s, b.end, attempts, false);
            && Along(feed, b.consumer, head, s, Body(b, |b.events|), s', ExitPhase(replies, s, b, attempts))
            && (o.Returned? ==> s'.db.pending == None && s'.db.durable.cursor == b.end)
  {
    var p, consumer := Body(b, |b.events|), b.consumer;
    var commit := RetryFrom(CommitWithin(replies, b.end), s, 0, attempts);
    RetriesStayAlong(feed, consumer, head, replies, b, s, 0, attempts);
    if commit.outcome.Raised? {
      AlongOne(feed, consumer, head, replies, commit.state, p, Rollback);
      AlongTrans(feed, consumer, head, s, p, commit.state, p, Send(replies, commit.state, Rollback).0, Idle);
    } else {
      AlongKeepsInvariant(feed, consumer, start, head, s, p, commit.state, Marked(b));
      var (s', o) := Send(replies, commit.state, Commit);
      var q := if o.Returned? then Idle else Unwinding;
      AlongOne(feed, consumer, head, replies, commit.state, Marked(b), Commit);
      AlongTrans(feed, consumer, head, s, p, commit.state, Marked(b), s', q);
      if o.Raised? {
        AlongOne(feed, consumer, head, replies, s', Unwinding, Rollback);
        AlongTrans(feed, consumer, head, s, p, s', Unwinding, Send(replies, s', Rollback).0, Idle);
      }
    }
  }

  /** After a body whose last statement raised, too, the block raises what its statements make of it. */
  lemma FailedBodyVerdict(sent: seq<Action>, failed: Action, rollback: Reply)
    requires failed.Exec? && failed.stmt != Rollback
    ensures Verdict(sent + [failed] + [Exec(Rollback, rollback)])
            == if Interrupted(rollback) then Raised(rollback.failure) else Answered(failed.reply)
  {
    LastAnswerAppend(sent, failed.stmt, failed.reply);
    LastAnswerAppend(sent + [failed], Rollback, rollback);
  }

  /** A database that fails no statement of its own accord. */
  ghost predicate Healthy(replies: Replies) { forall n: nat :: replies(n).Ok? }

  /** BEGIN; when it fails there is no block to leave. */
  method EnterBlock(ghost feed: seq<Event>, ghost head: int, tx: BatchTransaction, batch: Batch)
    returns (outcome: Outcome<()>)
    requires tx.state == TxState.Fresh
    modifies tx, tx.conn
    ensures Along(feed, batch.consumer, head, old(tx.conn.session), Holding(batch), tx.conn.session,
                  if outcome.Returned? then Body(batch, 0) else Idle)
    ensures outcome == Verdict(SentSince(old(tx.conn.session), tx.conn.session))
    ensures Healthy(tx.conn.replies) && old(tx.conn.session).db.pending == None ==> outcome.Returned?
  {
    ghost var s0 := tx.conn.session;
    ghost var begun := Settle(s0.db, Begin, tx.conn.replies(|s0.log|));
    AlongOne(feed, batch.consumer, head, tx.conn.replies, s0, Holding(batch), Begin);
    LastAnswerAppend([], Begin, begun);
    outcome := tx.Enter();
    assert SentSince(s0, tx.conn.session) == [] + [Exec(Begin, begun)];
  }

  /** The body of the block: the rows of the batch in order, up to the first that fails. */
  method WriteRows(ghost feed: seq<Event>, ghost head: int, tx: BatchTransaction, batch: Batch)
    returns (outcome: Outcome<()>)
    modifies tx.conn
    ensures Along(feed, batch.consumer, head, old(tx.conn.session), Body(batch, 0), tx.conn.session,
                  if outcome.Returned? then Body(batch, |batch.events|) else Unwinding)
    ensures outcome.Raised? ==>
              var sent := SentSince(old(tx.conn.session), tx.conn.session);
              && sent != [] && sent[|sent| - 1].Exec? && sent[|sent| - 1].stmt.InsertRow?
              && outcome == Answered(sent[|sent| - 1].reply)
    ensures Healthy(tx.conn.replies) ==> outcome.Returned?
  {
    ghost var consumer, s0 := batch.consumer, tx.conn.session;
    outcome := Returned(());
    Runs.AlongSelf(Steps(feed, consumer), At(head, s0, Body(batch, 0)));
    for i := 0 to |batch.events|
      invariant outcome.Returned?
      invariant Along(feed, consumer, head, s0, Body(batch, 0), tx.conn.session, Body(batch, i))
    {
      ghost var s := tx.conn.session;
      AlongOne(feed, consumer, head, tx.conn.replies, s, Body(batch, i), InsertRow(batch.events[i]));
      outcome := tx.Execute(InsertRow(batch.events[i]));
      AlongTrans(feed, consumer, head, s0, Body(batch, 0), s, Body(batch, i), tx.conn.session,
                 if outcome.Returned? then Body(batch, i + 1) else Unwinding);
      if outcome.Raised? {
        return;
      }
    }
  }

  /** Leaving the block with what its body came to. */
  method LeaveBlock(ghost feed: seq<Event>, ghost start: int, ghost head: int, ghost s0: Session,
                    tx: BatchTransaction, batch: Batch, body: Outcome<()>)
    returns (outcome: Outcome<()>, ghost phase: Phase)
    requires tx.attempts >= 1 && tx.endSnapshot == batch.end
    requires Ordered(feed) && Invariant(feed, start, System(head, s0.db, Holding(batch)))
    requires Along(feed, batch.consumer, head, s0, Holding(batch), tx.conn.session,
                   if body.Returned? then Body(batch, |batch.events|) else Unwinding)
    requires body.Raised? ==>
               var sent := SentSince(s0, tx.conn.session);
               && sent != [] && sent[|sent| - 1].Exec? && sent[|sent| - 1].stmt.InsertRow?
               && body == Answered(sent[|sent| - 1].reply)
    modifies tx, tx.conn
    ensures Along(feed, batch.consumer, head, s0, Holding(batch), tx.conn.session, phase)
    ensures outcome == Verdict(SentSince(s0, tx.conn.session))
    ensures outcome.Returned? ==>
              tx.conn.session.db.pending == None && tx.conn.session.db.durable.cursor == batch.end
    ensures Healthy(tx.conn.replies) && body.Returned? ==> outcome.Returned?
  {
    ghost var consumer, s, replies := batch.consumer, tx.conn.session, tx.conn.replies;
    ghost var sent := SentSince(s0, s);
    if body.Raised? {
      AlongOne(feed, consumer, head, replies, s, Unwinding, Rollback);
      ghost var rollback := ExceptionalExit(replies, s, batch.end, tx.attempts);
      FailedBodyVerdict(sent[..|sent| - 1], sent[|sent| - 1], rollback);
      outcome := tx.Exit(true);
      phase := Idle;
      AlongTrans(feed, consumer, head, s0, Holding(batch), s, Unwinding, tx.conn.session, phase);
      assert SentSince(s0, tx.conn.session) == sent[..|sent| - 1] + [sent[|sent| - 1]] + [Exec(Rollback, rollback)];
      if outcome.Returned? {
        outcome := body;
      }
    } else {
      var p := Body(batch, |batch.events|);
      AlongKeepsInvariant(feed, consumer, start, head, s0, Holding(batch), s, p);
      ExitStaysAlong(feed, start, head, replies, batch, s, tx.attempts);
      NormalExitVerdict(replies, s, batch.end, tx.attempts, sent);
      if Healthy(replies) {
        CleanExit(replies, s, batch.end, tx.attempts);
      }
      phase := ExitPhase(replies, s, batch, tx.attempts);
      outcome := tx.Exit(false);
      AlongTrans(feed, consumer, head, s0, Holding(batch), s, p, tx.conn.session, phase);
      SentTwice(s0, s, tx.conn.session);
    }
  }

  /**
   `with batch.transaction() as tx: tx.executemany(...)`: one batch, written row by row.  Whatever the
   database answers, the statements sent follow the protocol, and what is raised is what they make of it; a
   normal return means the batch is durable, and a healthy database gives one.
   */
  method TransactBatch(ghost feed: seq<Event>, ghost start: int, ghost head: int,
                       conn: Connection, batch: Batch, attempts: nat)
    returns (outcome: Outcome<()>, ghost phase: Phase)
    requires attempts >= 1
    requires Ordered(feed) && Invariant(feed, start, System(head, conn.session.db, Holding(batch)))
    modifies conn
    ensures Along(feed, batch.consumer, head, old(conn.session), Holding(batch), conn.session, phase)
    ensures outcome == Verdict(SentSince(old(conn.session), conn.session))
    ensures outcome.Returned? ==>
              conn.session.db.pending == None && conn.session.db.durable.cursor == batch.end
    ensures Healthy(conn.replies) && old(conn.session).db.pending == None ==> outcome.Returned?
  {
    ghost var s0 := conn.session;
    var tx := new BatchTransaction(conn, batch.end, attempts);
    outcome := EnterBlock(feed, head, tx, batch);
    phase := if outcome.Returned? then Body(batch, 0) else Idle;
    if outcome.Returned? {
      ghost var s1 := conn.session;
      outcome := WriteRows(feed, head, tx, batch);
      phase := if outcome.Returned? then Body(batch, |batch.events|) else Unwinding;
      AlongTrans(feed, batch.consumer, head, s0, Holding(batch), s1, Body(batch, 0), conn.session, phase);
      outcome, phase := LeaveBlock(feed, start, head, s0, tx, batch, outcome);
    }
  }

  /** What surrounds one round of the consumer's loop. */
  datatype Round = Round(head: int, e: int, stamps: seq<(bool, bool)>)

  /** The window of a round, at least as far as the head given for it. */
  function Reach(round: Round): int { Min(round.e, round.head) }

  /**
   The documented loop: listen, then one transaction per batch, for any number of rounds.  Failed blocks are
   abandoned and the next listen starts from the cursor again.  The sink table ends exactly-once; and with a
   healthy database it has everything that the rounds' windows reached.
   */
  method ConsumeAll(feed: seq<Event>, consumer: string, start: int, head0: int, conn: Connection,
                    attempts: nat, rounds: seq<Round>)
    returns (head: int)
    requires Ordered(feed) && start <= head0 && attempts >= 1
    requires conn.session.db == Db(Durable(start, []), None)
    modifies conn
    ensures var d := conn.session.db.durable;
            start <= d.cursor <= head && d.table == Between(feed, start, d.cursor)
    ensures Healthy(conn.replies) ==>
              forall i :: 0 <= i < |rounds| ==> Between(feed, conn.session.db.durable.cursor, Reach(rounds[i])) == []
  {
    head := head0;
    BetweenIsSlice(feed, start, start);
    for i := 0 to |rounds|
      invariant Invariant(feed, start, System(head, conn.session.db, Idle))
      invariant Healthy(conn.replies) ==> conn.session.db.pending == None
      invariant Healthy(conn.replies) ==>
                  forall k :: 0 <= k < i ==> Between(feed, conn.session.db.durable.cursor, Reach(rounds[k])) == []
    {
      head := Max(head, rounds[i].head);
      ghost var before := conn.session.db.durable.cursor;
      var outcome := ConsumeOnce(feed, consumer, start, head, conn, attempts, rounds[i]);
      forall k | 0 <= k < i && Healthy(conn.replies)
        ensures Between(feed, conn.session.db.durable.cursor, Reach(rounds[k])) == []
      {
        NothingBehind(feed, before, conn.session.db.durable.cursor, Reach(rounds[k]));
      }
    }
  }

  /** One round: listen from the cursor, and put what came into one transaction. */
  method ConsumeOnce(feed: seq<Event>, consumer: string, ghost start: int, head: int, conn: Connection,
                     attempts: nat, round: Round)
    returns (outcome: Outcome<()>)
    requires Ordered(feed) && attempts >= 1 && round.head <= head
    requires Invariant(feed, start, System(head, conn.session.db, Idle))
    modifies conn
    ensures Invariant(feed, start, System(head, conn.session.db, Idle))
    ensures old(conn.session).db.durable.cursor <= conn.session.db.durable.cursor
    ensures Healthy(conn.replies) && old(conn.session).db.pending == None ==>
              && conn.session.db.pending == None
              && Between(feed, conn.session.db.durable.cursor, Reach(round)) == []
  {
    outcome := Returned(());
    var c := Visible(conn.session.db).cursor;
    var e := Min(round.e, head);
    if e < c {
      NothingBetween(feed, c, Reach(round));
      return;
    }
    var rows := Batches.Reply(feed, c, e, round.stamps);
    ghost var idle := System(head, conn.session.db, Idle);
    ListenServes(feed, consumer, c, e, Reach(round), rows);
    if rows != [] {
      var batch := BuildBatch(consumer, rows);
      StepKeepsInvariant(feed, consumer, start, idle, Listen(e, rows));
      ghost var s := conn.session;
      ghost var phase;
      outcome, phase := TransactBatch(feed, start, head, conn, batch, attempts);
      AlongKeepsInvariant(feed, consumer, start, head, s, Holding(batch), conn.session, phase);
      AlongMovesOn(feed, consumer, start, head, s, Holding(batch), conn.session, phase);
    }
  }

  lemma AlongMovesOn(feed: seq<Event>, consumer: string, start: int, head: int, a: Session, p: Phase,
                     b: Session, q: Phase)
    requires Along(feed, consumer, head, a, p, b, q)
    requires Ordered(feed) && Invariant(feed, start, System(head, a.db, p))
    ensures a.db.durable.cursor <= b.db.durable.cursor
  {
    RunKeepsInvariant(feed, consumer, start, System(head, a.db, p), Runs.Since(At(head, a, p), At(head, b, q)));
  }
}
