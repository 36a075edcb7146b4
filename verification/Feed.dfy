/** Small value types shared by every module. */
module Prelude {
  datatype Option<+T> = None | Some(value: T)

  function Max(a: int, b: int): int { if a < b then b else a }

  function Min(a: int, b: int): int { if a < b then a else b }

  /** How often x occurs. */
  function Count<T(==)>(s: seq<T>, x: T): nat { multiset(s)[x] }

  lemma CountConcat<T>(s: seq<T>, t: seq<T>, x: T)
    ensures Count(s + t, x) == Count(s, x) + Count(t, x)
  {
    assert multiset(s + t) == multiset(s) + multiset(t);
  }
}

/**
 The change feed: what the producer appends, ordered by snapshot.

 A feed value is the whole history of one run.  How much of it exists at a given moment is a separate
 number, the head: appending is the head growing, and no read ever looks past the head.
 `AppendInvisible` is the reason this is the same as a feed that is appended to.
 */
module Feed {
  import opened Prelude

  datatype ChangeKind = Insert | UpdatePreimage | UpdatePostimage | Delete

  /** The four row shapes a consumer can receive: DML and DDL, as full changes or as ticks. */
  datatype Payload =
    | DmlChange(tableId: Option<int>, rowid: Option<int>, kind: ChangeKind, values: map<string, string>)
    | DdlChange(objectKind: string, objectId: Option<int>, eventKind: string, details: Option<string>)
    | DmlTick(dmlSchemaVersion: int, tableIds: seq<int>)
    | DdlTick(ddlSchemaVersion: int)

  datatype Event = Event(snapshot: int, payload: Payload)

  /** What a sink may treat as the stable identity of an event. */
  datatype Identity =
    | ChangeIdentity(snapshot: int, tableId: Option<int>, rowid: Option<int>, kind: ChangeKind)
    | SchemaIdentity(snapshot: int, objectKind: string, objectId: Option<int>, eventKind: string)
    | TickIdentity(snapshot: int)

  function Key(e: Event): Identity {
    match e.payload
    case DmlChange(tableId, rowid, kind, _) => ChangeIdentity(e.snapshot, tableId, rowid, kind)
    case DdlChange(objectKind, objectId, eventKind, _) =>
      SchemaIdentity(e.snapshot, objectKind, objectId, eventKind)
    case DmlTick(_, _) => TickIdentity(e.snapshot)
    case DdlTick(_) => TickIdentity(e.snapshot)
  }

  /** The identity of a row-level change is its snapshot, table, row and kind; values are not part of it. */
  lemma SameChangeExactlyWhen(e: Event, f: Event)
    requires e.payload.DmlChange? && f.payload.DmlChange?
    ensures Key(e) == Key(f) <==>
              && e.snapshot == f.snapshot && e.payload.tableId == f.payload.tableId
              && e.payload.rowid == f.payload.rowid && e.payload.kind == f.payload.kind
  {
  }

  /** The identity of a schema change is its snapshot, the object's kind and id, and what happened to it. */
  lemma SameSchemaChangeExactlyWhen(e: Event, f: Event)
    requires e.payload.DdlChange? && f.payload.DdlChange?
    ensures Key(e) == Key(f) <==>
              && e.snapshot == f.snapshot && e.payload.objectKind == f.payload.objectKind
              && e.payload.objectId == f.payload.objectId && e.payload.eventKind == f.payload.eventKind
  {
  }

  ghost predicate Ordered(feed: seq<Event>) {
    forall i, j :: 0 <= i < j < |feed| ==> feed[i].snapshot <= feed[j].snapshot
  }

  ghost predicate DistinctKeys(feed: seq<Event>) {
    forall i, j :: 0 <= i < j < |feed| ==> Key(feed[i]) != Key(feed[j])
  }

  /** The feed rows with lo < snapshot <= hi, in feed order: what a read of that window returns. */
  function Between(feed: seq<Event>, lo: int, hi: int): seq<Event> {
    if feed == [] then []
    else
      var rest := Between(feed[1..], lo, hi);
      if lo < feed[0].snapshot <= hi then [feed[0]] + rest else rest
  }

  /** The number of feed rows at or below a snapshot. */
  function Upto(feed: seq<Event>, s: int): (n: nat)
    ensures n <= |feed|
  {
    if feed == [] || s < feed[0].snapshot then 0 else 1 + Upto(feed[1..], s)
  }

  lemma {:induction false} UptoCuts(feed: seq<Event>, s: int)
    requires Ordered(feed)
    ensures forall i :: 0 <= i < Upto(feed, s) ==> feed[i].snapshot <= s
    ensures forall i :: Upto(feed, s) <= i < |feed| ==> s < feed[i].snapshot
  {
    if feed != [] && feed[0].snapshot <= s {
      UptoCuts(feed[1..], s);
      assert forall i :: 0 < i < |feed| ==> feed[i] == feed[1..][i - 1];
    }
  }

  lemma UptoMonotone(feed: seq<Event>, s: int, t: int)
    requires Ordered(feed) && s <= t
    ensures Upto(feed, s) <= Upto(feed, t)
  {
    UptoCuts(feed, s);
    UptoCuts(feed, t);
    assert Upto(feed, t) < |feed| ==> t < feed[Upto(feed, t)].snapshot;
  }

  /** A window of an ordered feed is a contiguous slice of it. */
  lemma {:induction false} BetweenIsSlice(feed: seq<Event>, lo: int, hi: int)
    requires Ordered(feed) && lo <= hi
    ensures Upto(feed, lo) <= Upto(feed, hi)
    ensures Between(feed, lo, hi) == feed[Upto(feed, lo)..Upto(feed, hi)]
  {
    UptoMonotone(feed, lo, hi);
    if feed != [] {
      var rest := feed[1..];
      BetweenIsSlice(rest, lo, hi);
      if feed[0].snapshot <= lo {
      } else if feed[0].snapshot <= hi {
        assert rest != [] ==> rest[0] == feed[1];
        assert Upto(rest, lo) == 0;
        assert feed[0..Upto(feed, hi)] == [feed[0]] + rest[0..Upto(rest, hi)];
      } else {
        assert rest != [] ==> rest[0] == feed[1];
        assert Upto(rest, hi) == 0;
      }
    }
  }

  /** Two adjacent windows make one, with no gap and no overlap. */
  lemma BetweenSplits(feed: seq<Event>, lo: int, mid: int, hi: int)
    requires Ordered(feed) && lo <= mid <= hi
    ensures Between(feed, lo, hi) == Between(feed, lo, mid) + Between(feed, mid, hi)
  {
    BetweenIsSlice(feed, lo, mid);
    BetweenIsSlice(feed, mid, hi);
    BetweenIsSlice(feed, lo, hi);
  }

  /** Rows appended above the head change no window that ends at or below it. */
  lemma {:induction false} AppendInvisible(feed: seq<Event>, more: seq<Event>, lo: int, hi: int)
    requires forall e :: e in more ==> hi < e.snapshot
    ensures Between(feed + more, lo, hi) == Between(feed, lo, hi)
  {
    if feed != [] {
      assert (feed + more)[1..] == feed[1..] + more;
      AppendInvisible(feed[1..], more, lo, hi);
    } else {
      assert feed + more == more;
      NothingBetween(more, lo, hi);
    }
  }

  lemma {:induction false} NothingBetween(feed: seq<Event>, lo: int, hi: int)
    requires forall e :: e in feed ==> !(lo < e.snapshot <= hi)
    ensures Between(feed, lo, hi) == []
  {
    if feed != [] {
      assert feed[0] in feed;
      NothingBetween(feed[1..], lo, hi);
    }
  }

  lemma {:induction false} BetweenMembers(feed: seq<Event>, lo: int, hi: int)
    ensures forall e :: e in Between(feed, lo, hi) <==> e in feed && lo < e.snapshot <= hi
  {
    if feed != [] {
      BetweenMembers(feed[1..], lo, hi);
      assert forall e :: e in feed <==> e == feed[0] || e in feed[1..];
    }
  }

  /** Where nothing is left behind a cursor, nothing is left behind a later one. */
  lemma NothingBehind(feed: seq<Event>, c: int, c': int, e: int)
    requires Ordered(feed) && c <= c' && Between(feed, c, e) == []
    ensures Between(feed, c', e) == []
  {
    if c' <= e {
      BetweenSplits(feed, c, c', e);
    } else {
      NothingBetween(feed, c', e);
    }
  }
}
