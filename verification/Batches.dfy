/**
 Batches: the four batch builders (DML and DDL, changes and ticks) compute the same window bounds and the
 same snapshot ids from the rows of one listen; they differ only in the columns they copy.
 */
module Batches {
  import opened Prelude
  import opened Feed
  import opened Decimal

  /** One row of a listen: an event, and the window bounds the extension may have stamped on it. */
  datatype Row = Row(event: Event, start: Option<int>, end: Option<int>)

  datatype Batch = Batch(
    consumer: string, id: string, start: int, end: int, snapshotIds: seq<int>, events: seq<Event>)

  function RowStart(row: Row): int { if row.start.Some? then row.start.value else row.event.snapshot }

  function RowEnd(row: Row): int { if row.end.Some? then row.end.value else row.event.snapshot }

  function MinStart(rows: seq<Row>): (m: int)
    requires rows != []
    ensures forall r :: r in rows ==> m <= RowStart(r)
    ensures exists r :: r in rows && m == RowStart(r)
    ensures forall r :: r in rows ==> if r.start.Some? then m <= r.start.value else m <= r.event.snapshot
    ensures exists r :: r in rows && if r.start.Some? then r.start.value == m else r.event.snapshot == m
  {
    assert rows[0] in rows;
    if |rows| == 1 then RowStart(rows[0])
    else
      var m := MinStart(rows[1..]);
      assert forall r :: r in rows <==> r == rows[0] || r in rows[1..];
      Min(RowStart(rows[0]), m)
  }

  function MaxEnd(rows: seq<Row>): (m: int)
    requires rows != []
    ensures forall r :: r in rows ==> RowEnd(r) <= m
    ensures exists r :: r in rows && m == RowEnd(r)
    ensures forall r :: r in rows ==> if r.end.Some? then r.end.value <= m else r.event.snapshot <= m
    ensures exists r :: r in rows && if r.end.Some? then r.end.value == m else r.event.snapshot == m
  {
    assert rows[0] in rows;
    if |rows| == 1 then RowEnd(rows[0])
    else
      var m := MaxEnd(rows[1..]);
      assert forall r :: r in rows <==> r == rows[0] || r in rows[1..];
      Max(RowEnd(rows[0]), m)
  }

  ghost predicate StrictlyIncreasing(s: seq<int>) {
    forall i, j :: 0 <= i < j < |s| ==> s[i] < s[j]
  }

  lemma HeadBelowTail(ids: seq<int>)
    requires StrictlyIncreasing(ids) && ids != []
    ensures forall y :: y in ids[1..] ==> ids[0] < y
    ensures forall y :: y in ids <==> y == ids[0] || y in ids[1..]
  {
  }

  lemma ConsIncreasing(head: int, tail: seq<int>)
    requires StrictlyIncreasing(tail) && forall y :: y in tail ==> head < y
    ensures StrictlyIncreasing([head] + tail)
  {
    assert forall i :: 0 <= i < |tail| ==> tail[i] in tail;
  }

  /** Add an id to a sorted, duplicate-free sequence of ids. */
  function InsertId(ids: seq<int>, x: int): (r: seq<int>)
    requires StrictlyIncreasing(ids)
    ensures StrictlyIncreasing(r)
    ensures forall y :: y in r <==> y == x || y in ids
  {
    if ids == [] then [x]
    else
      HeadBelowTail(ids);
      if x < ids[0] then
        ConsIncreasing(x, ids);
        [x] + ids
      else if x == ids[0] then ids
      else
        var r := InsertId(ids[1..], x);
        ConsIncreasing(ids[0], r);
        [ids[0]] + r
  }

  /** The distinct snapshot ids of the rows, sorted. */
  function SnapshotIds(rows: seq<Row>): (ids: seq<int>)
    ensures StrictlyIncreasing(ids)
    ensures forall x :: x in ids <==> exists r :: r in rows && r.event.snapshot == x
  {
    if rows == [] then []
    else
      assert rows[0] in rows && forall r :: r in rows <==> r == rows[0] || r in rows[1..];
      InsertId(SnapshotIds(rows[1..]), rows[0].event.snapshot)
  }

  function BatchId(consumer: string, start: int, end: int): string {
    consumer + "/" + IntText(start) + "-" + IntText(end)
  }

  function Events(rows: seq<Row>): seq<Event> { seq(|rows|, i requires 0 <= i < |rows| => rows[i].event) }

  function BuildBatch(consumer: string, rows: seq<Row>): Batch
    requires rows != []
  {
    var start, end := MinStart(rows), MaxEnd(rows);
    Batch(consumer, BatchId(consumer, start, end), start, end, SnapshotIds(rows), Events(rows))
  }

  /**
   What a cursor-driven listen at cursor c may return for a window that ends at e: exactly the feed rows of
   the window, each bound independently stamped or left out.
   */
  ghost predicate IsReply(feed: seq<Event>, c: int, e: int, rows: seq<Row>) {
    && Events(rows) == Between(feed, c, e)
    && forall i :: 0 <= i < |rows| ==>
         && (rows[i].start == None || rows[i].start == Some(c + 1))
         && (rows[i].end == None || rows[i].end == Some(e))
  }

  /** One reply of that kind: the window's rows, row i stamped with the bounds that stamps[i] selects. */
  function Reply(feed: seq<Event>, c: int, e: int, stamps: seq<(bool, bool)>): (rows: seq<Row>)
    ensures IsReply(feed, c, e, rows)
  {
    var events := Between(feed, c, e);
    seq(|events|, i requires 0 <= i < |events| =>
      var (stampStart, stampEnd) := if i < |stamps| then stamps[i] else (false, false);
      Row(events[i], if stampStart then Some(c + 1) else None, if stampEnd then Some(e) else None))
  }

  /**
   The commit boundary.  Whatever mix of stamped and unstamped rows one window produced, the batch bounds
   stay inside the window, contain every row, and committing the end bound skips no feed row: the batch is
   exactly the feed between the cursor and that bound.
   */
  lemma CommitBoundary(consumer: string, feed: seq<Event>, c: int, e: int, rows: seq<Row>)
    requires Ordered(feed) && c <= e && rows != [] && IsReply(feed, c, e, rows)
    ensures var b := BuildBatch(consumer, rows);
            && c < b.start <= b.end <= e
            && (forall ev :: ev in b.events ==> b.start <= ev.snapshot <= b.end)
            && b.events == Between(feed, c, b.end)
            && b.events != []
            && StrictlyIncreasing(b.snapshotIds)
            && (forall x :: x in b.snapshotIds <==> exists ev :: ev in b.events && ev.snapshot == x)
  {
    var b := BuildBatch(consumer, rows);
    BetweenMembers(feed, c, e);
    forall i | 0 <= i < |rows|
      ensures c < RowStart(rows[i]) <= rows[i].event.snapshot <= RowEnd(rows[i]) <= e
      ensures b.start <= RowStart(rows[i]) && RowEnd(rows[i]) <= b.end
    {
      assert Events(rows)[i] in Between(feed, c, e);
      assert rows[i] in rows;
    }
    assert forall r :: r in rows ==> exists i :: 0 <= i < |rows| && rows[i] == r;
    assert b.start <= RowStart(rows[0]) <= RowEnd(rows[0]) <= b.end;
    BetweenSplits(feed, c, b.end, e);
    NothingBetween(feed, b.end, e);
    forall x ensures x in b.snapshotIds <==> exists ev :: ev in b.events && ev.snapshot == x {
      if x in b.snapshotIds {
        var r :| r in rows && r.event.snapshot == x;
        var i :| 0 <= i < |rows| && rows[i] == r;
        assert b.events[i] in b.events;
      }
      if ev :| ev in b.events && ev.snapshot == x {
        var i :| 0 <= i < |b.events| && b.events[i] == ev;
        assert rows[i] in rows;
      }
    }
  }

  /** Sorted, duplicate-free sequences with the same elements are the same sequence. */
  lemma {:induction false} IncreasingUnique(s: seq<int>, t: seq<int>)
    requires StrictlyIncreasing(s) && StrictlyIncreasing(t)
    requires forall x :: x in s <==> x in t
    ensures s == t
  {
    assert s != [] ==> s[0] in s && s[0] in t;
    assert t != [] ==> t[0] in t && t[0] in s;
    if s != [] && t != [] {
      assert s[0] == t[0];
      forall x ensures x in s[1..] <==> x in t[1..] {
        assert x in s <==> x == s[0] || x in s[1..];
        assert x in t <==> x == t[0] || x in t[1..];
      }
      IncreasingUnique(s[1..], t[1..]);
    }
  }

  /** The bounds, the ids and the batch id depend on which rows arrived, not on their order. */
  lemma BoundsIgnoreRowOrder(consumer: string, rows: seq<Row>, shuffled: seq<Row>)
    requires rows != [] && multiset(rows) == multiset(shuffled)
    ensures shuffled != []
    ensures var b, b' := BuildBatch(consumer, rows), BuildBatch(consumer, shuffled);
            b.(events := []) == b'.(events := [])
  {
    SameElements(rows, shuffled);
    SameBounds(rows, shuffled);
    IncreasingUnique(SnapshotIds(rows), SnapshotIds(shuffled));
  }

  lemma SameElements(rows: seq<Row>, shuffled: seq<Row>)
    requires rows != [] && multiset(rows) == multiset(shuffled)
    ensures shuffled != []
    ensures forall r :: r in rows <==> r in shuffled
  {
    assert rows[0] in multiset(rows);
    forall r ensures r in rows <==> r in shuffled {
      assert r in rows <==> r in multiset(rows);
      assert r in shuffled <==> r in multiset(shuffled);
    }
  }

  lemma SameBounds(rows: seq<Row>, shuffled: seq<Row>)
    requires rows != [] && shuffled != []
    requires forall r :: r in rows <==> r in shuffled
    ensures MinStart(rows) == MinStart(shuffled) && MaxEnd(rows) == MaxEnd(shuffled)
  {
  }

  /** Split at the last slash. */
  function SplitLastSlash(s: string): Option<(string, string)> {
    if s == [] then None
    else if s[|s| - 1] == '/' then Some((s[..|s| - 1], ""))
    else
      match SplitLastSlash(s[..|s| - 1])
      case None => None
      case Some((left, right)) => Some((left, right + [s[|s| - 1]]))
  }

  /** Read a batch id back: the name ends at the last slash, the start bound at the dash after its digits. */
  function DecodeBatchId(id: string): Option<(string, int, int)> {
    match SplitLastSlash(id)
    case None => None
    case Some((consumer, bounds)) =>
      match ReadInt(bounds)
      case None => None
      case Some((start, rest)) =>
        if rest == [] || rest[0] != '-' then None
        else
          match ReadInt(rest[1..])
          case Some((end, "")) => Some((consumer, start, end))
          case _ => None
  }

  lemma {:induction false} SplitLastSlashOf(left: string, right: string)
    requires '/' !in right
    ensures SplitLastSlash(left + "/" + right) == Some((left, right))
  {
    var s := left + "/" + right;
    if right == [] {
      assert s[..|s| - 1] == left;
    } else {
      var init := right[..|right| - 1];
      assert s[..|s| - 1] == left + "/" + init;
      SplitLastSlashOf(left, init);
      assert init + [right[|right| - 1]] == right;
    }
  }

  lemma BatchIdRoundTrip(consumer: string, start: int, end: int)
    ensures DecodeBatchId(BatchId(consumer, start, end)) == Some((consumer, start, end))
  {
    var bounds := IntText(start) + ("-" + IntText(end));
    assert BatchId(consumer, start, end) == consumer + "/" + bounds;
    SplitLastSlashOf(consumer, bounds);
    ReadIntOfText(start, "-" + IntText(end));
    assert ("-" + IntText(end))[1..] == IntText(end) + "";
    ReadIntOfText(end, "");
  }

  /** A batch id names exactly one (consumer, start, end), for every name and every pair of integers. */
  lemma BatchIdInjective(consumer: string, start: int, end: int, consumer': string, start': int, end': int)
    ensures BatchId(consumer, start, end) == BatchId(consumer', start', end')
            <==> consumer == consumer' && start == start' && end == end'
  {
    BatchIdRoundTrip(consumer, start, end);
    BatchIdRoundTrip(consumer', start', end');
  }

  /** What a listen returns is all there is up to its window's end: nothing is left behind its batch. */
  lemma ListenServes(feed: seq<Event>, consumer: string, c: int, e: int, reach: int, rows: seq<Row>)
    requires Ordered(feed) && c <= e && reach <= e && IsReply(feed, c, e, rows)
    ensures Between(feed, if rows == [] then c else BuildBatch(consumer, rows).end, reach) == []
  {
    var end := if rows == [] then c else BuildBatch(consumer, rows).end;
    if rows == [] {
      assert |Events(rows)| == 0;
    } else {
      CommitBoundary(consumer, feed, c, e, rows);
      BetweenSplits(feed, c, end, e);
      assert |Between(feed, c, end)| == |Between(feed, c, e)|;
    }
    if end <= reach {
      BetweenSplits(feed, end, reach, e);
    } else {
      NothingBetween(feed, end, reach);
    }
  }

  /**
   The bounds of a batch, from the listen alone: one stamped row is enough for the window's own bound, on
   either side; without any, the bound is the first or the last row's snapshot.  The id encodes the bounds.
   */
  lemma ReplyBounds(consumer: string, feed: seq<Event>, c: int, e: int, rows: seq<Row>)
    requires Ordered(feed) && c <= e && rows != [] && IsReply(feed, c, e, rows)
    ensures var b := BuildBatch(consumer, rows);
            && b.start == (if exists r :: r in rows && r.start.Some? then c + 1 else rows[0].event.snapshot)
            && b.end == (if exists r :: r in rows && r.end.Some? then e else rows[|rows| - 1].event.snapshot)
            && (forall r :: r in rows ==> rows[0].event.snapshot <= r.event.snapshot <= rows[|rows| - 1].event.snapshot)
            && b.consumer == consumer
            && DecodeBatchId(b.id) == Some((consumer, b.start, b.end))
  {
    RowsInOrder(feed, c, e, rows);
    BatchIdRoundTrip(consumer, MinStart(rows), MaxEnd(rows));
    assert rows[0] in rows && rows[|rows| - 1] in rows;
    forall r | r in rows
      ensures r.start.Some? ==> r.start == Some(c + 1)
      ensures r.end.Some? ==> r.end == Some(e)
    {
      var i :| 0 <= i < |rows| && rows[i] == r;
    }
  }

  /** The rows of a listen come in snapshot order, inside the window. */
  lemma RowsInOrder(feed: seq<Event>, c: int, e: int, rows: seq<Row>)
    requires Ordered(feed) && c <= e && rows != [] && IsReply(feed, c, e, rows)
    ensures forall r :: r in rows ==>
              && c < r.event.snapshot <= e
              && rows[0].event.snapshot <= r.event.snapshot <= rows[|rows| - 1].event.snapshot
  {
    BetweenMembers(feed, c, e);
    BetweenIsSlice(feed, c, e);
    var window := Between(feed, c, e);
    forall r | r in rows
      ensures c < r.event.snapshot <= e
      ensures rows[0].event.snapshot <= r.event.snapshot <= rows[|rows| - 1].event.snapshot
    {
      var i :| 0 <= i < |rows| && rows[i] == r;
      assert Events(rows)[i] == window[i] && Events(rows)[0] == window[0];
      assert Events(rows)[|rows| - 1] == window[|rows| - 1];
      assert window[i] in window;
    }
  }

  /** The id of the batch from snapshot 1 to snapshot 10. */
  lemma BatchIdExample()
    ensures BatchId("orders/eu", 1, 10) == "orders/eu/1-10"
  {
    assert Decimal.NatText(10) == "10" && Decimal.NatText(1) == "1";
  }
}
