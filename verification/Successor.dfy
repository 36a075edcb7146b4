/** Handing over at a schema boundary: a chain of consumers, each a successor of the one before. */
module Successor {
  import opened Prelude
  import opened Feed
  import opened Batches
  import opened Retry
  import opened Transactions
  import Setup

  /** The part of a consumer's window that says whether it is stopped at a boundary. */
  datatype Window = Window(terminal: bool, terminalAt: Option<int>)

  datatype StartError = NotOpen | NotAtBoundary

  datatype StartResult = StartOk(start: Setup.StartAt) | StartFailed(error: StartError)

  /** The start a successor is created with: the caller's, or the boundary of a terminal window. */
  function SuccessorStart(isOpen: bool, startAt: Option<Setup.StartAt>, w: Window): StartResult {
    if !isOpen then StartFailed(NotOpen)
    else if startAt.Some? then StartOk(startAt.value)
    else if !w.terminal || w.terminalAt.None? then StartFailed(NotAtBoundary)
    else StartOk(Setup.At(w.terminalAt.value))
  }

  /** One consumer of the chain: its run, and the window it shows its successor. */
  datatype Link = Link(consumer: string, head: int, actions: seq<Action>, window: Window)

  ghost function Final(feed: seq<Event>, cursor: int, link: Link): Option<System> {
    Run(feed, link.consumer, Initial(cursor, link.head), link.actions)
  }

  /** The extension never serves a window that reaches the boundary. */
  predicate CappedAt(actions: seq<Action>, boundary: int) {
    forall k :: 0 <= k < |actions| && actions[k].Listen? ==> actions[k].e < boundary
  }

  /** The link ran from this cursor, and has committed every row before its window's boundary. */
  ghost predicate StoppedAt(feed: seq<Event>, cursor: int, link: Link) {
    && Final(feed, cursor, link).Some?
    && link.window.terminal && link.window.terminalAt.Some?
    && var boundary := link.window.terminalAt.value;
       && cursor < boundary && CappedAt(link.actions, boundary)
       && Between(feed, Final(feed, cursor, link).value.db.durable.cursor, boundary - 1) == []
  }

  /** Neither the durable cursor, nor an uncommitted one, nor the batch in hand has reached the boundary. */
  predicate Below(s: System, boundary: int) {
    && s.db.durable.cursor < boundary
    && (s.db.pending.Some? ==> s.db.pending.value.cursor < boundary)
    && match s.phase
       case Idle => true
       case Unwinding => true
       case Holding(b) => b.end < boundary
       case Body(b, _) => b.end < boundary
       case Marked(b) => b.end < boundary
  }

  lemma StepStaysBelow(feed: seq<Event>, consumer: string, s: System, a: Action, boundary: int)
    requires Ordered(feed) && Next(feed, consumer, s, a).Some? && Below(s, boundary)
    requires a.Listen? ==> a.e < boundary
    ensures Below(Next(feed, consumer, s, a).value, boundary)
  {
    if a.Listen? && a.rows != [] {
      CommitBoundary(consumer, feed, Visible(s.db).cursor, a.e, a.rows);
    }
  }

  /** Served nothing at or past the boundary, a consumer never commits past it, whatever fails. */
  lemma {:induction false} StaysBelow(
    feed: seq<Event>, consumer: string, s: System, actions: seq<Action>, boundary: int)
    requires Ordered(feed) && Run(feed, consumer, s, actions).Some? && Below(s, boundary)
    requires CappedAt(actions, boundary)
    ensures Below(Run(feed, consumer, s, actions).value, boundary)
    decreases actions
  {
    if actions != [] {
      StepStaysBelow(feed, consumer, s, actions[0], boundary);
      assert forall k :: 0 <= k < |actions[1..]| ==> actions[1..][k] == actions[k + 1];
      StaysBelow(feed, consumer, Next(feed, consumer, s, actions[0]).value, actions[1..], boundary);
    }
  }

  /** The cursor at which the successor's consumer is created. */
  function NextCursor(link: Link): int {
    match SuccessorStart(true, None, link.window)
    case StartOk(start) => Setup.Position(start, link.head)
    case StartFailed(_) => 0
  }

  /** A chain of hand-offs from a first cursor; every link but the last is stopped at its boundary. */
  ghost predicate Chain(feed: seq<Event>, cursor: int, links: seq<Link>)
    decreases links
  {
    && links != []
    && cursor <= links[0].head
    && Final(feed, cursor, links[0]).Some?
    && (|links| > 1 ==> StoppedAt(feed, cursor, links[0]) && Chain(feed, NextCursor(links[0]), links[1..]))
  }

  /** What all the consumers of the chain have committed, in order. */
  ghost function Committed(feed: seq<Event>, cursor: int, links: seq<Link>): seq<Event>
    requires Chain(feed, cursor, links)
    decreases links
  {
    var table := Final(feed, cursor, links[0]).value.db.durable.table;
    if |links| == 1 then table else table + Committed(feed, NextCursor(links[0]), links[1..])
  }

  ghost function LastCursor(feed: seq<Event>, cursor: int, links: seq<Link>): int
    requires Chain(feed, cursor, links)
    decreases links
  {
    if |links| == 1 then Final(feed, cursor, links[0]).value.db.durable.cursor
    else LastCursor(feed, NextCursor(links[0]), links[1..])
  }

  /** The snapshot a successor starts from: the caller's, or the boundary. */
  function From(startAt: Option<Setup.StartAt>, w: Window): Option<int> {
    if startAt.None? then w.terminalAt
    else if startAt.value.At? then Some(startAt.value.snapshot)
    else None
  }

  /**
   A successor is refused exactly on a closed consumer, or without a start of its own off the boundary.  Where
   it is not, it takes over exactly there: however its set-up is retried, once entering returned, a consumer
   that did not exist, or was replaced, stands right before the snapshot it starts from, the boundary by
   default; so a listen has all the rows from that snapshot through its window's end and no earlier one.
   */
  lemma SuccessorTakesOver(feed: seq<Event>, isOpen: bool, startAt: Option<Setup.StartAt>, w: Window, name: string,
                           policy: Setup.OnExists, conditions: nat -> Setup.Conditions, server: Setup.Server,
                           e: int, rows: seq<Row>)
    requires Ordered(feed) && (policy.Use? ==> server.consumer.None?)
    ensures SuccessorStart(isOpen, startAt, w).StartOk?
            <==> isOpen && (startAt.Some? || (w.terminal && w.terminalAt.Some?))
    ensures var result := SuccessorStart(isOpen, startAt, w);
            result.StartOk? && From(startAt, w).Some? ==>
              var r := Setup.Entered(name, policy, result.start, conditions, server);
              r.outcome.Returned? ==>
                && r.state.consumer.Some?
                && var cursor := r.state.consumer.value.cursor;
                   && cursor == From(startAt, w).value - 1
                   && (IsReply(feed, cursor, e, rows) ==>
                         forall ev :: ev in Events(rows)
                                      <==> ev in feed && From(startAt, w).value <= ev.snapshot <= e)
  {
    var result := SuccessorStart(isOpen, startAt, w);
    if result.StartOk? && From(startAt, w).Some? {
      if policy.Replace? {
        Setup.ReplaceIsFresh(name, result.start, conditions, server);
      } else if server.consumer.Some? {
        Setup.KeepsExisting(name, policy, result.start, conditions, server, 0, MAX_ATTEMPTS);
      } else {
        var n := Setup.CreatesFrom(name, policy, result.start, conditions, server, 0, MAX_ATTEMPTS);
      }
      BetweenMembers(feed, From(startAt, w).value - 1, e);
    }
  }

  /**
   For any number of hand-offs, the committed deliveries of the whole chain, one after the other, are the
   feed from the first cursor through the last: no gap and no overlap at any boundary.
   */
  lemma {:induction false} ChainIsSeamless(feed: seq<Event>, cursor: int, links: seq<Link>)
    requires Ordered(feed) && Chain(feed, cursor, links)
    ensures cursor <= LastCursor(feed, cursor, links)
    ensures Committed(feed, cursor, links) == Between(feed, cursor, LastCursor(feed, cursor, links))
    decreases links
  {
    var link := links[0];
    ExactlyOnce(feed, link.consumer, cursor, link.head, link.actions);
    if |links| > 1 {
      var d := Final(feed, cursor, link).value.db.durable;
      StaysBelow(feed, link.consumer, Initial(cursor, link.head), link.actions, link.window.terminalAt.value);
      var next, last := NextCursor(link), LastCursor(feed, NextCursor(link), links[1..]);
      ChainIsSeamless(feed, next, links[1..]);
      BetweenSplits(feed, cursor, d.cursor, next);
      BetweenSplits(feed, cursor, next, last);
    }
  }
}
