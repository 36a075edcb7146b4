/** `consumer.batches()`: the polling loop, its exits and its timers.  Times are integer milliseconds. */
module Loop {
  import opened Prelude
  import opened Feed
  import opened Batches
  import Window

  datatype Options = Options(
    dml: bool, infinite: bool, maxBatches: int, maxSnapshots: int, idleTimeout: int,
    drains: bool, drainIdleTimeout: int)

  /**
   What one pass through the loop observes: the stop event at the top of the pass and at its end, the listen's
   rows and duration, the drain event, and the clock after the listen.
   */
  datatype Poll = Poll(
    stopBefore: bool, rows: seq<Row>, elapsedMs: real, stopAfter: bool, draining: bool, now: int)

  datatype Exit = Stopped | OneShot | Drained | IdledOut | BatchLimit

  datatype State = State(yielded: nat, lastActivity: int, window: nat)

  /** What one pass does: the new state, the batch it yields, and whether the generator then returns. */
  datatype Pass = Pass(state: State, batch: Option<Batch>, exit: Option<Exit>)

  ghost predicate Sound(o: Options, s: State) { 1 <= s.window <= Window.Ceiling(o.maxSnapshots) }

  function Start(o: Options, now: int): (s: State)
    ensures Sound(o, s)
  {
    State(0, now, Window.Initial(Window.Ceiling(o.maxSnapshots)))
  }

  /** The max_snapshots the next listen asks for. */
  function Requested(o: Options, s: State): int { if o.dml then s.window else o.maxSnapshots }

  function Seen(b: Batch, p: Poll): Window.Observation {
    Window.Delivered(|p.rows|, Max(1, b.end - b.start + 1), p.elapsedMs)
  }

  function Observed(o: Options, s: State, seen: Window.Observation): (w: nat)
    requires Sound(o, s)
    ensures 1 <= w <= Window.Ceiling(o.maxSnapshots)
  {
    if o.dml then Window.Observe(Window.Ceiling(o.maxSnapshots), s.window, seen) else s.window
  }

  function Iterate(o: Options, consumer: string, s: State, p: Poll): (r: Pass)
    requires Sound(o, s)
    ensures Sound(o, r.state)
  {
    if p.stopBefore then Pass(s, None, Some(Stopped))
    else if p.rows == [] then
      var s' := s.(window := Observed(o, s, Window.Empty));
      var idle := p.now - s.lastActivity;
      if p.stopAfter then Pass(s', None, Some(Stopped))
      else if !o.infinite then Pass(s', None, Some(OneShot))
      else if o.drains && p.draining then
        Pass(s', None, if idle >= o.drainIdleTimeout then Some(Drained) else None)
      else if o.idleTimeout > 0 && idle >= o.idleTimeout then Pass(s', None, Some(IdledOut))
      else Pass(s', None, None)
    else
      var batch := BuildBatch(consumer, p.rows);
      var s' := State(s.yielded + 1, p.now, Observed(o, s, Seen(batch, p)));
      if !o.infinite then Pass(s', Some(batch), Some(OneShot))
      else if o.maxBatches > 0 && s'.yielded >= o.maxBatches then Pass(s', Some(batch), Some(BatchLimit))
      else Pass(s', Some(batch), None)
  }

  /** The generator object: its locals are fields, and one call of Step runs it to its next poll. */
  class BatchLoop {
    const options: Options
    const consumer: string
    const window: Window.AdaptiveSnapshotWindow
    var yielded: nat
    var lastActivity: int

    ghost predicate Valid()
      reads this, window
    {
      window.Valid() && window.ceiling == Window.Ceiling(options.maxSnapshots)
    }

    function View(): State
      requires Valid()
      reads this, window
    {
      State(yielded, lastActivity, window.current)
    }

    constructor (options: Options, consumer: string, now: int)
      ensures Valid() && fresh(window)
      ensures this.options == options && this.consumer == consumer && View() == Start(options, now)
    {
      this.options := options;
      this.consumer := consumer;
      yielded := 0;
      lastActivity := now;
      window := new Window.AdaptiveSnapshotWindow(options.maxSnapshots);
    }

    method StepEmpty(p: Poll) returns (exit: Option<Exit>)
      requires Valid() && !p.stopBefore && p.rows == []
      modifies this, window
      ensures Valid()
      ensures Pass(View(), None, exit) == Iterate(options, consumer, old(View()), p)
    {
      exit := None;
      if options.dml {
        window.ObserveEmpty();
      }
      if p.stopAfter {
        exit := Some(Stopped);
        return;
      }
      if !options.infinite {
        exit := Some(OneShot);
        return;
      }
      var idle := p.now - lastActivity;
      if options.drains && p.draining {
        if idle >= options.drainIdleTimeout {
          exit := Some(Drained);
        }
      } else if options.idleTimeout > 0 && idle >= options.idleTimeout {
        exit := Some(IdledOut);
      }
    }

    method StepRows(p: Poll) returns (batch: Option<Batch>, exit: Option<Exit>)
      requires Valid() && !p.stopBefore && p.rows != []
      modifies this, window
      ensures Valid()
      ensures Pass(View(), batch, exit) == Iterate(options, consumer, old(View()), p)
    {
      exit := None;
      lastActivity := p.now;
      var built := BuildBatch(consumer, p.rows);
      if options.dml {
        window.ObserveBatch(|p.rows|, Max(1, built.end - built.start + 1), p.elapsedMs);
      }
      batch := Some(built);
      yielded := yielded + 1;
      if !options.infinite {
        exit := Some(OneShot);
      } else if options.maxBatches > 0 && yielded >= options.maxBatches {
        exit := Some(BatchLimit);
      }
    }

    /** One pass: nothing after a stop, else what an empty or a non-empty listen leads to. */
    method Step(p: Poll) returns (batch: Option<Batch>, exit: Option<Exit>)
      requires Valid()
      modifies this, window
      ensures Valid()
      ensures Pass(View(), batch, exit) == Iterate(options, consumer, old(View()), p)
    {
      batch, exit := None, None;
      if p.stopBefore {
        exit := Some(Stopped);
      } else if p.rows == [] {
        exit := StepEmpty(p);
      } else {
        batch, exit := StepRows(p);
      }
    }
  }

  /** The whole loop on a schedule of polls; no exit means the schedule ended first. */
  datatype Execution = Execution(batches: seq<Batch>, exit: Option<Exit>)

  function Exec(o: Options, consumer: string, s: State, polls: seq<Poll>): Execution
    requires Sound(o, s)
    decreases polls
  {
    if polls == [] then Execution([], None)
    else
      var r := Iterate(o, consumer, s, polls[0]);
      var now := if r.batch.Some? then [r.batch.value] else [];
      if r.exit.Some? then Execution(now, r.exit)
      else
        var rest := Exec(o, consumer, r.state, polls[1..]);
        Execution(now + rest.batches, rest.exit)
  }

  // ------------------------------------------------------------------ limits and stopping

  /** Never more than one batch when not infinite, never more than max_batches when that is positive. */
  lemma {:induction false} YieldsWithinLimits(o: Options, consumer: string, s: State, polls: seq<Poll>)
    requires Sound(o, s) && (o.maxBatches > 0 ==> s.yielded < o.maxBatches)
    ensures var x := Exec(o, consumer, s, polls);
            && (!o.infinite ==> |x.batches| <= 1)
            && (!o.infinite && polls != [] ==> x.exit.Some?)
            && (o.maxBatches > 0 ==> s.yielded + |x.batches| <= o.maxBatches)
            && (x.exit == Some(BatchLimit) ==> s.yielded + |x.batches| == o.maxBatches)
    decreases polls
  {
    if polls != [] {
      var r := Iterate(o, consumer, s, polls[0]);
      if r.exit.None? {
        YieldsWithinLimits(o, consumer, r.state, polls[1..]);
      }
    }
  }

  /** A stop event, once set, stays set. */
  predicate StopStays(polls: seq<Poll>) {
    && (forall i :: 0 <= i < |polls| ==> (polls[i].stopBefore ==> polls[i].stopAfter))
    && (forall i :: 0 < i < |polls| ==> (polls[i - 1].stopAfter ==> polls[i].stopBefore))
  }

  /** The number of batches yielded by polls whose listen ended after the stop event was set. */
  function LateYields(o: Options, consumer: string, s: State, polls: seq<Poll>): nat
    requires Sound(o, s)
    decreases polls
  {
    if polls == [] then 0
    else
      var r := Iterate(o, consumer, s, polls[0]);
      (if r.batch.Some? && polls[0].stopAfter then 1 else 0)
      + if r.exit.Some? then 0 else LateYields(o, consumer, r.state, polls[1..])
  }

  /** On any schedule at most one more batch is yielded once the stop event is set. */
  lemma {:induction false} StopYieldsAtMostOne(o: Options, consumer: string, s: State, polls: seq<Poll>)
    requires Sound(o, s) && StopStays(polls)
    ensures LateYields(o, consumer, s, polls) <= 1
    decreases polls
  {
    if polls != [] {
      var r := Iterate(o, consumer, s, polls[0]);
      if r.exit.None? {
        assert |polls| > 1 && polls[0].stopAfter ==> polls[1].stopBefore;
        StopYieldsAtMostOne(o, consumer, r.state, polls[1..]);
      }
    }
  }

  /**
   The stop event is not checked after a listen that returned rows: a batch whose listen was in flight when
   the event was set is still yielded, exactly when the listen was not empty, and then the loop ends.
   */
  lemma InFlightBatchIsYielded(o: Options, consumer: string, s: State, polls: seq<Poll>)
    requires Sound(o, s) && StopStays(polls)
    requires polls != [] && !polls[0].stopBefore && polls[0].stopAfter
    ensures var x := Exec(o, consumer, s, polls);
            && x.batches == (if polls[0].rows == [] then [] else [BuildBatch(consumer, polls[0].rows)])
            && (|polls| > 1 ==> x.exit.Some?)
  {
    var r := Iterate(o, consumer, s, polls[0]);
    if r.exit.None? && |polls| > 1 {
      assert polls[1..][0] == polls[1] && polls[1].stopBefore;
      assert Exec(o, consumer, r.state, polls[1..]) == Execution([], Some(Stopped));
    }
  }

  // ------------------------------------------------------------------ the requested window

  /** What each poll shows the adaptive window. */
  function Observations(consumer: string, polls: seq<Poll>): seq<Window.Observation> {
    if polls == [] then []
    else
      [if polls[0].rows == [] then Window.Empty else Seen(BuildBatch(consumer, polls[0].rows), polls[0])]
      + Observations(consumer, polls[1..])
  }

  /** The state after polls that did not end the loop. */
  function After(o: Options, consumer: string, s: State, polls: seq<Poll>): (r: State)
    requires Sound(o, s)
    ensures Sound(o, r)
    decreases polls
  {
    if polls == [] then s else After(o, consumer, Iterate(o, consumer, s, polls[0]).state, polls[1..])
  }

  /**
   As long as the loop goes on, the max_snapshots a DML listen asks for is the adaptive window after
   everything seen so far, never outside 1 to the ceiling; a DDL listen always asks for the caller's value.
   */
  lemma {:induction false} RequestFollowsWindow(o: Options, consumer: string, s: State, polls: seq<Poll>)
    requires Sound(o, s) && Exec(o, consumer, s, polls).exit.None?
    ensures var requested := Requested(o, After(o, consumer, s, polls));
            if o.dml then
              && 1 <= requested <= Window.Ceiling(o.maxSnapshots)
              && requested == Window.ObserveAll(
                   Window.Ceiling(o.maxSnapshots), s.window, Observations(consumer, polls))
            else requested == o.maxSnapshots
    decreases polls
  {
    if polls != [] {
      var r := Iterate(o, consumer, s, polls[0]);
      RequestFollowsWindow(o, consumer, r.state, polls[1..]);
      assert Observations(consumer, polls)[1..] == Observations(consumer, polls[1..]);
    }
  }

  // ------------------------------------------------------------------ idling

  /** When the loop last saw rows: the clock of the last non-empty poll, or an earlier time. */
  function LastActivity(t: int, polls: seq<Poll>): int {
    if polls == [] then t
    else if polls[|polls| - 1].rows != [] then polls[|polls| - 1].now
    else LastActivity(t, polls[..|polls| - 1])
  }

  lemma {:induction false} LastActivityCons(t: int, p: Poll, polls: seq<Poll>)
    ensures LastActivity(t, [p] + polls) == LastActivity(if p.rows != [] then p.now else t, polls)
  {
    if polls == [] {
      assert [p] + polls == [p] && [p][..0] == [];
    } else {
      var init := polls[..|polls| - 1];
      assert ([p] + polls)[..|polls|] == [p] + init;
      LastActivityCons(t, p, init);
    }
  }

  lemma LastActivityTail(t: int, polls: seq<Poll>, m: nat)
    requires m < |polls|
    ensures LastActivity(t, polls[..m + 1])
            == LastActivity(if polls[0].rows != [] then polls[0].now else t, polls[1..][..m])
  {
    LastActivityCons(t, polls[0], polls[1..][..m]);
    assert polls[..m + 1] == [polls[0]] + polls[1..][..m];
  }

  /** The idle time an exit asks for. */
  function IdleLimit(o: Options, exit: Exit): int {
    if exit.Drained? then o.drainIdleTimeout else o.idleTimeout
  }

  /**
   A timed exit is never early: it follows an empty poll, and the time since rows were last seen, or since
   the start, has reached the limit; only a drain uses the drain's limit.
   */
  lemma {:induction false} TimedExitIsIdle(o: Options, consumer: string, s: State, polls: seq<Poll>)
    returns (n: nat)
    requires Sound(o, s) && Exec(o, consumer, s, polls).exit in {Some(Drained), Some(IdledOut)}
    ensures n < |polls| && polls[n].rows == []
    ensures var exit := Exec(o, consumer, s, polls).exit.value;
            && polls[n].now - LastActivity(s.lastActivity, polls[..n]) >= IdleLimit(o, exit)
            && (exit == Drained <==> o.drains && polls[n].draining)
            && (exit == IdledOut ==> o.idleTimeout > 0)
    decreases polls
  {
    var r := Iterate(o, consumer, s, polls[0]);
    if r.exit.Some? {
      n := 0;
    } else {
      var m := TimedExitIsIdle(o, consumer, r.state, polls[1..]);
      n := m + 1;
      LastActivityTail(s.lastActivity, polls, m);
    }
  }

  // ------------------------------------------------------------------ when the loop ends

  /** How many of the polls returned rows. */
  function Busy(polls: seq<Poll>): nat {
    if polls == [] then 0
    else Busy(polls[..|polls| - 1]) + if polls[|polls| - 1].rows == [] then 0 else 1
  }

  /** The batches of the polls that listened and returned rows. */
  function Built(consumer: string, polls: seq<Poll>): seq<Batch> {
    if polls == [] then []
    else
      (if polls[0].stopBefore || polls[0].rows == [] then [] else [BuildBatch(consumer, polls[0].rows)])
      + Built(consumer, polls[1..])
  }

  /** The stop event is seen: before the listen, or after one that came back empty. */
  predicate SeesStop(p: Poll) { p.stopBefore || (p.rows == [] && p.stopAfter) }

  /**
   Poll k ends the loop in this way, for a loop that had yielded `yielded` batches and last seen rows at time
   `last` before these polls.
   */
  predicate EndsAt(o: Options, yielded: nat, last: int, polls: seq<Poll>, k: nat, exit: Exit)
    requires k < |polls|
  {
    var p := polls[k];
    var idle := p.now - LastActivity(last, polls[..k]);
    var drained := o.drains && p.draining;
    match exit
    case Stopped => SeesStop(p)
    case OneShot => !SeesStop(p) && !o.infinite
    case BatchLimit =>
      !SeesStop(p) && o.infinite && p.rows != [] && 0 < o.maxBatches <= yielded + Busy(polls[..k + 1])
    case Drained => !SeesStop(p) && o.infinite && p.rows == [] && drained && idle >= o.drainIdleTimeout
    case IdledOut => !SeesStop(p) && o.infinite && p.rows == [] && !drained && 0 < o.idleTimeout <= idle
  }

  lemma {:induction false} BusyCons(p: Poll, polls: seq<Poll>)
    ensures Busy([p] + polls) == (if p.rows == [] then 0 else 1) + Busy(polls)
  {
    if polls == [] {
      assert [p] + polls == [p] && [p][..0] == [];
    } else {
      assert ([p] + polls)[..|polls|] == [p] + polls[..|polls| - 1];
      BusyCons(p, polls[..|polls| - 1]);
    }
  }

  /** Seen from after the first poll, the later ones end the loop in the same way. */
  lemma EndsAtShifts(o: Options, yielded: nat, last: int, polls: seq<Poll>, k: nat, exit: Exit)
    requires k + 1 < |polls|
    ensures var p := polls[0];
            EndsAt(o, yielded, last, polls, k + 1, exit)
            <==> EndsAt(o, if p.rows == [] then yielded else yielded + 1, if p.rows == [] then last else p.now,
                        polls[1..], k, exit)
  {
    var p, rest := polls[0], polls[1..];
    LastActivityTail(last, polls, k);
    BusyCons(p, rest[..k + 1]);
    assert polls[..k + 2] == [p] + rest[..k + 1];
  }

  /** No poll before number n ends the loop. */
  ghost predicate GoesOnUntil(o: Options, yielded: nat, last: int, polls: seq<Poll>, n: nat)
    requires n <= |polls|
  {
    forall k: nat, exit: Exit :: k < n ==> !EndsAt(o, yielded, last, polls, k, exit)
  }

  /** The loop makes n polls, and ends with the last of them, in this way, or with the schedule. */
  ghost predicate EndsWith(o: Options, yielded: nat, last: int, polls: seq<Poll>, n: nat, exit: Option<Exit>) {
    n <= |polls| &&
    if exit.None? then n == |polls| && GoesOnUntil(o, yielded, last, polls, n)
    else n > 0 && GoesOnUntil(o, yielded, last, polls, n - 1) && EndsAt(o, yielded, last, polls, n - 1, exit.value)
  }

  /** One more poll in front that does not end the loop. */
  lemma EndsWithCons(o: Options, s: State, s': State, polls: seq<Poll>, n: nat, exit: Option<Exit>)
    requires polls != [] && GoesOnUntil(o, s.yielded, s.lastActivity, polls, 1)
    requires s'.yielded == if polls[0].rows == [] then s.yielded else s.yielded + 1
    requires s'.lastActivity == if polls[0].rows == [] then s.lastActivity else polls[0].now
    requires EndsWith(o, s'.yielded, s'.lastActivity, polls[1..], n, exit)
    ensures EndsWith(o, s.yielded, s.lastActivity, polls, n + 1, exit)
  {
    var quiet := if exit.None? then n + 1 else n;
    forall k: nat, other: Exit | k < quiet ensures !EndsAt(o, s.yielded, s.lastActivity, polls, k, other) {
      if k > 0 {
        EndsAtShifts(o, s.yielded, s.lastActivity, polls, k - 1, other);
      }
    }
    if exit.Some? {
      EndsAtShifts(o, s.yielded, s.lastActivity, polls, n - 1, exit.value);
    }
  }

  /** One pass ends the loop exactly as its poll says. */
  lemma FirstPollEnds(o: Options, consumer: string, s: State, polls: seq<Poll>)
    requires Sound(o, s) && polls != []
    ensures var p, r := polls[0], Iterate(o, consumer, s, polls[0]);
            if r.exit.Some? then EndsWith(o, s.yielded, s.lastActivity, polls, 1, r.exit)
            else
              && GoesOnUntil(o, s.yielded, s.lastActivity, polls, 1)
              && r.state.yielded == (if p.rows == [] then s.yielded else s.yielded + 1)
              && r.state.lastActivity == (if p.rows == [] then s.lastActivity else p.now)
  {
    BusyCons(polls[0], []);
    assert polls[..1] == [polls[0]] + [] && polls[..0] == [];
  }

  lemma EndsWithPrefix(o: Options, yielded: nat, last: int, polls: seq<Poll>, n: nat, exit: Option<Exit>)
    requires EndsWith(o, yielded, last, polls, n, exit) && n > 0
    ensures GoesOnUntil(o, yielded, last, polls, n - 1)
  {
  }

  /** How many polls the loop makes of a schedule. */
  function PollsMade(o: Options, consumer: string, s: State, polls: seq<Poll>): (n: nat)
    requires Sound(o, s)
    ensures n <= |polls|
    decreases polls
  {
    if polls == [] then 0
    else
      var r := Iterate(o, consumer, s, polls[0]);
      1 + if r.exit.Some? then 0 else PollsMade(o, consumer, r.state, polls[1..])
  }

  lemma {:induction false} YieldsWhatItPolled(o: Options, consumer: string, s: State, polls: seq<Poll>)
    requires Sound(o, s)
    ensures Exec(o, consumer, s, polls).batches == Built(consumer, polls[..PollsMade(o, consumer, s, polls)])
    decreases polls
  {
    if polls != [] {
      var r, n := Iterate(o, consumer, s, polls[0]), PollsMade(o, consumer, s, polls);
      assert polls[..n][1..] == polls[1..][..n - 1];
      if r.exit.None? {
        YieldsWhatItPolled(o, consumer, r.state, polls[1..]);
      }
    }
  }

  lemma {:induction false} EndsExactlyFrom(o: Options, consumer: string, s: State, polls: seq<Poll>)
    requires Sound(o, s)
    ensures EndsWith(o, s.yielded, s.lastActivity, polls, PollsMade(o, consumer, s, polls),
                     Exec(o, consumer, s, polls).exit)
    decreases polls
  {
    if polls != [] {
      var r := Iterate(o, consumer, s, polls[0]);
      FirstPollEnds(o, consumer, s, polls);
      if r.exit.None? {
        EndsExactlyFrom(o, consumer, r.state, polls[1..]);
        EndsWithCons(o, s, r.state, polls, PollsMade(o, consumer, r.state, polls[1..]),
                     Exec(o, consumer, r.state, polls[1..]).exit);
      }
    }
  }

  /**
   The loop makes n polls: it ends with the first one that is told to end it, in that way, and not before;
   without any it goes on.  Every listen of those polls that returned rows is yielded, and nothing else is.
   */
  lemma EndsExactlyWhen(o: Options, consumer: string, now: int, polls: seq<Poll>) returns (n: nat)
    ensures n <= |polls|
    ensures var x := Exec(o, consumer, Start(o, now), polls);
            && x.batches == Built(consumer, polls[..n])
            && (x.exit.None? ==> n == |polls|)
            && (x.exit.Some? ==> n > 0)
            && forall k: nat, exit: Exit :: k < n ==>
                 (EndsAt(o, 0, now, polls, k, exit) <==> k == n - 1 && x.exit == Some(exit))
  {
    n := PollsMade(o, consumer, Start(o, now), polls);
    YieldsWhatItPolled(o, consumer, Start(o, now), polls);
    EndsExactlyFrom(o, consumer, Start(o, now), polls);
    var x := Exec(o, consumer, Start(o, now), polls);
    forall k: nat, exit: Exit | k < n
      ensures EndsAt(o, 0, now, polls, k, exit) <==> k == n - 1 && x.exit == Some(exit)
    {
      if x.exit.Some? && k == n - 1 && EndsAt(o, 0, now, polls, k, exit) {
        OneExit(o, 0, now, polls, k, exit, x.exit.value);
      }
    }
  }

  lemma OneExit(o: Options, yielded: nat, last: int, polls: seq<Poll>, k: nat, exit: Exit, other: Exit)
    requires k < |polls|
    requires EndsAt(o, yielded, last, polls, k, exit) && EndsAt(o, yielded, last, polls, k, other)
    ensures exit == other
  {
  }

  /** By default the loop never ends: without a stop, a limit or a drain every non-empty listen is yielded. */
  lemma {:induction false} InfiniteLoopGoesOn(o: Options, consumer: string, now: int, polls: seq<Poll>)
    requires o.infinite && o.maxBatches <= 0 && o.idleTimeout <= 0
    requires forall k :: 0 <= k < |polls| ==>
               !polls[k].stopBefore && !polls[k].stopAfter && !(o.drains && polls[k].draining)
    ensures Exec(o, consumer, Start(o, now), polls) == Execution(Built(consumer, polls), None)
    ensures |Built(consumer, polls)| == Busy(polls)
  {
    var n := EndsExactlyWhen(o, consumer, now, polls);
    var x := Exec(o, consumer, Start(o, now), polls);
    if x.exit.Some? {
      assert EndsAt(o, 0, now, polls, n - 1, x.exit.value);
    }
    assert polls[..n] == polls;
    BuiltIsBusy(consumer, polls);
  }

  lemma {:induction false} BuiltIsBusy(consumer: string, polls: seq<Poll>)
    requires forall k :: 0 <= k < |polls| ==> !polls[k].stopBefore
    ensures |Built(consumer, polls)| == Busy(polls)
  {
    if polls != [] {
      assert polls == [polls[0]] + polls[1..];
      BuiltIsBusy(consumer, polls[1..]);
      BusyCons(polls[0], polls[1..]);
    }
  }

  /** The span that the window is shown: the whole listened window as soon as both its ends are stamped. */
  lemma SpanOfReply(feed: seq<Event>, consumer: string, c: int, e: int, p: Poll)
    requires Ordered(feed) && c <= e && p.rows != [] && IsReply(feed, c, e, p.rows)
    ensures var starts, ends := exists r :: r in p.rows && r.start.Some?, exists r :: r in p.rows && r.end.Some?;
            var first := if starts then c + 1 else p.rows[0].event.snapshot;
            var last := if ends then e else p.rows[|p.rows| - 1].event.snapshot;
            Seen(BuildBatch(consumer, p.rows), p) == Window.Delivered(|p.rows|, last - first + 1, p.elapsedMs)
  {
    ReplyBounds(consumer, feed, c, e, p.rows);
    CommitBoundary(consumer, feed, c, e, p.rows);
  }

  // ------------------------------------------------------------------ draining

  /** Polls of a consumer at `cursor` whose caller commits every batch: each listen starts at the cursor. */
  ghost predicate Replied(feed: seq<Event>, head: int, consumer: string, cursor: int, polls: seq<Poll>)
    decreases polls
  {
    polls == [] ||
    var rows := polls[0].rows;
    && (rows != [] ==> exists e :: cursor <= e <= head && IsReply(feed, cursor, e, rows))
    && Replied(feed, head, consumer, if rows == [] then cursor else BuildBatch(consumer, rows).end, polls[1..])
  }

  /** The same, with the producer stopped at `head`: a listen waits for rows, so it is empty only at the end. */
  ghost predicate Served(feed: seq<Event>, head: int, consumer: string, cursor: int, polls: seq<Poll>)
    decreases polls
  {
    polls == [] ||
    var rows := polls[0].rows;
    && (rows == [] ==> Between(feed, cursor, head) == [])
    && (rows != [] ==> exists e :: cursor <= e <= head && IsReply(feed, cursor, e, rows))
    && Served(feed, head, consumer, if rows == [] then cursor else BuildBatch(consumer, rows).end, polls[1..])
  }

  /** Draining, with no stop request; every poll takes at least a millisecond after time t. */
  ghost predicate Draining(polls: seq<Poll>, t: int)
    decreases polls
  {
    polls == [] ||
    var p := polls[0];
    !p.stopBefore && !p.stopAfter && p.draining && t < p.now && Draining(polls[1..], p.now)
  }

  function Concatenated(batches: seq<Batch>): seq<Event> {
    if batches == [] then [] else batches[0].events + Concatenated(batches[1..])
  }

  /** One drained poll that returned rows: the batch is the feed up to its end, so fewer rows remain. */
  lemma DrainStep(feed: seq<Event>, head: int, consumer: string, cursor: int, rows: seq<Row>)
    requires Ordered(feed) && rows != []
    requires exists e :: cursor <= e <= head && IsReply(feed, cursor, e, rows)
    ensures var b := BuildBatch(consumer, rows);
            && cursor < b.end <= head
            && Between(feed, cursor, head) == b.events + Between(feed, b.end, head)
            && b.events != []
  {
    var e :| cursor <= e <= head && IsReply(feed, cursor, e, rows);
    CommitBoundary(consumer, feed, cursor, e, rows);
    BetweenSplits(feed, cursor, BuildBatch(consumer, rows).end, head);
  }

  /**
   A listen came back empty although rows were left, when rows had last been seen drainIdleTimeout or longer
   ago.  `last` is the time of the last activity before these polls.
   */
  ghost predicate Starved(feed: seq<Event>, head: int, o: Options, consumer: string, cursor: int, last: int,
                          polls: seq<Poll>)
    decreases polls
  {
    polls != [] &&
    var p := polls[0];
    if p.rows != [] then Starved(feed, head, o, consumer, BuildBatch(consumer, p.rows).end, p.now, polls[1..])
    else
      || (Between(feed, cursor, head) != [] && p.now - last >= o.drainIdleTimeout)
      || Starved(feed, head, o, consumer, cursor, last, polls[1..])
  }

  /** With nothing left to deliver, no listen can starve. */
  lemma {:induction false} NothingLeftNeverStarves(
    feed: seq<Event>, head: int, o: Options, consumer: string, cursor: int, last: int, polls: seq<Poll>)
    requires Ordered(feed) && cursor <= head && Between(feed, cursor, head) == []
    requires Replied(feed, head, consumer, cursor, polls)
    ensures !Starved(feed, head, o, consumer, cursor, last, polls)
    decreases polls
  {
    if polls != [] {
      if polls[0].rows != [] {
        DrainStep(feed, head, consumer, cursor, polls[0].rows);
        assert false;
      } else {
        NothingLeftNeverStarves(feed, head, o, consumer, cursor, last, polls[1..]);
      }
    }
  }

  /**
   The drain ends only as Drained.  It has then yielded every remaining row of the feed, in order, exactly
   when no listen starved: when no listen was empty with rows left as late as the idle timeout.
   */
  lemma {:induction false} DrainIsComplete(
    feed: seq<Event>, head: int, o: Options, consumer: string, cursor: int, s: State, polls: seq<Poll>, t: int)
    requires Ordered(feed) && cursor <= head && Sound(o, s)
    requires o.infinite && o.drains && o.maxBatches <= 0
    requires Replied(feed, head, consumer, cursor, polls) && Draining(polls, t)
    ensures var x := Exec(o, consumer, s, polls);
            x.exit.Some? ==>
              && x.exit == Some(Drained)
              && (Concatenated(x.batches) == Between(feed, cursor, head)
                  <==> !Starved(feed, head, o, consumer, cursor, s.lastActivity, polls))
    decreases polls
  {
    if polls != [] {
      var r := Iterate(o, consumer, s, polls[0]);
      var x := Exec(o, consumer, s, polls);
      if polls[0].rows != [] {
        DrainStep(feed, head, consumer, cursor, polls[0].rows);
        DrainIsComplete(feed, head, o, consumer, r.batch.value.end, r.state, polls[1..], polls[0].now);
        assert x.batches[1..] == Exec(o, consumer, r.state, polls[1..]).batches;
        SamePrefix(r.batch.value.events, Concatenated(x.batches[1..]), Between(feed, r.batch.value.end, head));
      } else if r.exit.None? {
        DrainIsComplete(feed, head, o, consumer, cursor, r.state, polls[1..], polls[0].now);
        assert x.batches == Exec(o, consumer, r.state, polls[1..]).batches;
      } else if Between(feed, cursor, head) == [] {
        NothingLeftNeverStarves(feed, head, o, consumer, cursor, s.lastActivity, polls);
      }
    }
  }

  lemma SamePrefix(a: seq<Event>, b: seq<Event>, c: seq<Event>)
    ensures a + b == a + c <==> b == c
  {
    assert (a + b)[|a|..] == b && (a + c)[|a|..] == c;
  }

  /** A producer that pauses for the timeout is enough: the drain gives up on its first empty listen. */
  lemma PausedProducerStarvesDrain(feed: seq<Event>, head: int, o: Options, consumer: string, cursor: int, s: State)
    requires Sound(o, s) && o.infinite && o.drains && o.maxBatches <= 0
    requires Between(feed, cursor, head) != []
    ensures var late := Poll(false, [], 0.0, false, true, s.lastActivity + Max(1, o.drainIdleTimeout));
            && Replied(feed, head, consumer, cursor, [late]) && Draining([late], s.lastActivity)
            && Exec(o, consumer, s, [late]) == Execution([], Some(Drained))
            && Starved(feed, head, o, consumer, cursor, s.lastActivity, [late])
  {
  }

  /** A producer that has stopped starves no listen. */
  lemma {:induction false} ServedNeverStarves(
    feed: seq<Event>, head: int, o: Options, consumer: string, cursor: int, last: int, polls: seq<Poll>)
    requires Served(feed, head, consumer, cursor, polls)
    ensures Replied(feed, head, consumer, cursor, polls)
    ensures !Starved(feed, head, o, consumer, cursor, last, polls)
    decreases polls
  {
    if polls != [] {
      var p := polls[0];
      ServedNeverStarves(feed, head, o, consumer, if p.rows == [] then cursor else BuildBatch(consumer, p.rows).end,
                         if p.rows == [] then last else p.now, polls[1..]);
    }
  }

  /** So with the producer stopped a drain that ends has yielded everything. */
  lemma ServedDrainIsComplete(
    feed: seq<Event>, head: int, o: Options, consumer: string, cursor: int, s: State, polls: seq<Poll>, t: int)
    requires Ordered(feed) && cursor <= head && Sound(o, s)
    requires o.infinite && o.drains && o.maxBatches <= 0
    requires Served(feed, head, consumer, cursor, polls) && Draining(polls, t)
    ensures var x := Exec(o, consumer, s, polls);
            x.exit.Some? ==>
              x.exit == Some(Drained) && Concatenated(x.batches) == Between(feed, cursor, head)
  {
    ServedNeverStarves(feed, head, o, consumer, cursor, s.lastActivity, polls);
    DrainIsComplete(feed, head, o, consumer, cursor, s, polls, t);
  }

  /** Whatever ends the loop, the batches it yielded are one contiguous stretch of the feed. */
  lemma {:induction false} YieldsAreContiguous(
    feed: seq<Event>, head: int, o: Options, consumer: string, cursor: int, s: State, polls: seq<Poll>)
    returns (last: int)
    requires Ordered(feed) && cursor <= head && Sound(o, s) && Replied(feed, head, consumer, cursor, polls)
    ensures cursor <= last <= head
    ensures Concatenated(Exec(o, consumer, s, polls).batches) == Between(feed, cursor, last)
    decreases polls
  {
    last := cursor;
    BetweenIsSlice(feed, cursor, cursor);
    if polls != [] {
      var r := Iterate(o, consumer, s, polls[0]);
      var batches := Exec(o, consumer, s, polls).batches;
      if r.batch.Some? {
        DrainStep(feed, head, consumer, cursor, polls[0].rows);
        var end := r.batch.value.end;
        last := end;
        BetweenIsSlice(feed, end, end);
        if r.exit.None? {
          last := YieldsAreContiguous(feed, head, o, consumer, end, r.state, polls[1..]);
          assert batches[1..] == Exec(o, consumer, r.state, polls[1..]).batches;
        }
        BatchThenRest(feed, consumer, cursor, polls[0].rows, last, head);
      } else if r.exit.None? {
        last := YieldsAreContiguous(feed, head, o, consumer, cursor, r.state, polls[1..]);
        assert batches == Exec(o, consumer, r.state, polls[1..]).batches;
      }
    }
  }

  lemma BatchThenRest(feed: seq<Event>, consumer: string, cursor: int, rows: seq<Row>, last: int, head: int)
    requires Ordered(feed) && rows != [] && BuildBatch(consumer, rows).end <= last
    requires exists e :: cursor <= e <= head && IsReply(feed, cursor, e, rows)
    ensures var b := BuildBatch(consumer, rows);
            Between(feed, cursor, last) == b.events + Between(feed, b.end, last)
  {
    var e :| cursor <= e <= head && IsReply(feed, cursor, e, rows);
    CommitBoundary(consumer, feed, cursor, e, rows);
    BetweenSplits(feed, cursor, BuildBatch(consumer, rows).end, last);
  }

  /** The polls left until the idle timeout, if all of them are empty. */
  function IdleBudget(o: Options, s: State, t: int): int { Max(1, o.drainIdleTimeout - (t - s.lastActivity)) }

  /** The polls a drain can still need: the idle timeout, again after each row left. */
  function DrainBudget(o: Options, remaining: nat, s: State, t: int): int {
    remaining * Max(1, o.drainIdleTimeout) + IdleBudget(o, s, t)
  }

  /** A poll that brought rows pays for the idle timeout that starts again. */
  lemma BatchPays(o: Options, remaining: nat, left: nat, s: State, t: int, s': State, t': int)
    requires left < remaining && s'.lastActivity == t'
    ensures DrainBudget(o, left, s', t') < DrainBudget(o, remaining, s, t)
  {
    var m := Max(1, o.drainIdleTimeout);
    Window.Times(m, left + 1, remaining);
    assert (left + 1) * m == left * m + m;
  }

  /** The drain ends, whatever the listens return: any schedule as long as the budget reaches the exit. */
  lemma {:induction false} DrainTerminates(
    feed: seq<Event>, head: int, o: Options, consumer: string, cursor: int, s: State, polls: seq<Poll>, t: int)
    requires Ordered(feed) && cursor <= head && Sound(o, s)
    requires o.infinite && o.drains && o.maxBatches <= 0
    requires Replied(feed, head, consumer, cursor, polls) && Draining(polls, t)
    requires DrainBudget(o, |Between(feed, cursor, head)|, s, t) <= |polls|
    ensures Exec(o, consumer, s, polls).exit == Some(Drained)
    decreases polls
  {
    var r := Iterate(o, consumer, s, polls[0]);
    if polls[0].rows != [] {
      DrainStep(feed, head, consumer, cursor, polls[0].rows);
      BatchPays(o, |Between(feed, cursor, head)|, |Between(feed, r.batch.value.end, head)|, s, t,
                r.state, polls[0].now);
      DrainTerminates(feed, head, o, consumer, r.batch.value.end, r.state, polls[1..], polls[0].now);
    } else if r.exit.None? {
      DrainTerminates(feed, head, o, consumer, cursor, r.state, polls[1..], polls[0].now);
    }
  }

  /** With the producer stopped: one poll for each row left, then the idle milliseconds once. */
  function ServedBudget(o: Options, remaining: nat, s: State, t: int): int {
    if remaining > 0 then remaining + Max(1, o.drainIdleTimeout) else IdleBudget(o, s, t)
  }

  lemma {:induction false} ServedDrainTerminates(
    feed: seq<Event>, head: int, o: Options, consumer: string, cursor: int, s: State, polls: seq<Poll>, t: int)
    requires Ordered(feed) && cursor <= head && Sound(o, s)
    requires o.infinite && o.drains && o.maxBatches <= 0
    requires Served(feed, head, consumer, cursor, polls) && Draining(polls, t)
    requires ServedBudget(o, |Between(feed, cursor, head)|, s, t) <= |polls|
    ensures Exec(o, consumer, s, polls).exit == Some(Drained)
    decreases polls
  {
    var r := Iterate(o, consumer, s, polls[0]);
    if polls[0].rows != [] {
      DrainStep(feed, head, consumer, cursor, polls[0].rows);
      ServedDrainTerminates(feed, head, o, consumer, r.batch.value.end, r.state, polls[1..], polls[0].now);
    } else if r.exit.None? {
      ServedDrainTerminates(feed, head, o, consumer, cursor, r.state, polls[1..], polls[0].now);
    }
  }
}
