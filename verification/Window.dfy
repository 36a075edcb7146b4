/** The adaptive snapshot window: how many snapshots a DML consumer asks the next listen for. */
module Window {
  import opened Prelude

  const INITIAL_MAX_SNAPSHOTS := 8
  const TARGET_ROWS := 2048
  const TARGET_LISTEN_MS := 150.0
  const FAST_LISTEN_MS := 75.0
  const LARGE_BATCH_ROWS := 8192

  /** What one listen showed. */
  datatype Observation = Empty | Delivered(rowCount: int, span: int, elapsedMs: real)

  predicate Slow(o: Observation) {
    o.Delivered? && (o.elapsedMs >= TARGET_LISTEN_MS || o.rowCount >= LARGE_BATCH_ROWS)
  }

  /** Fast and small: the window may grow if the batch also filled it. */
  predicate Light(o: Observation) {
    o.Delivered? && !Slow(o) && o.rowCount <= TARGET_ROWS / 2 && o.elapsedMs <= FAST_LISTEN_MS
  }

  function Ceiling(maxSnapshots: int): (c: int) ensures 1 <= c { Max(1, maxSnapshots) }

  function Initial(ceiling: int): int { Min(ceiling, INITIAL_MAX_SNAPSHOTS) }

  function Halved(x: nat): nat { Max(1, x / 2) }

  function Grown(ceiling: int, x: nat): int { Min(ceiling, Max(x + 1, x * 2)) }

  /** The window after one observation. */
  function Observe(ceiling: int, x: nat, o: Observation): (y: nat)
    requires 1 <= x <= ceiling
    ensures 1 <= y <= ceiling
  {
    if o.Empty? || Slow(o) then Halved(x)
    else if o.span >= x && Light(o) then Grown(ceiling, x)
    else x
  }

  function ObserveAll(ceiling: int, x: nat, history: seq<Observation>): (y: nat)
    requires 1 <= x <= ceiling
    ensures 1 <= y <= ceiling
    decreases history
  {
    if history == [] then x else ObserveAll(ceiling, Observe(ceiling, x, history[0]), history[1..])
  }

  class AdaptiveSnapshotWindow {
    const ceiling: int
    var current: int

    ghost predicate Valid() reads this { 1 <= current <= ceiling }

    constructor (maxSnapshots: int)
      ensures Valid() && ceiling == Ceiling(maxSnapshots) && current == Initial(ceiling)
    {
      ceiling := Max(1, maxSnapshots);
      current := Min(Max(1, maxSnapshots), INITIAL_MAX_SNAPSHOTS);
    }

    method ObserveEmpty()
      requires Valid()
      modifies this`current
      ensures Valid() && current == Observe(ceiling, old(current), Empty)
    {
      current := Max(1, current / 2);
    }

    method ObserveBatch(rowCount: int, span: int, elapsedMs: real)
      requires Valid()
      modifies this`current
      ensures Valid() && current == Observe(ceiling, old(current), Delivered(rowCount, span, elapsedMs))
    {
      if elapsedMs >= TARGET_LISTEN_MS || rowCount >= LARGE_BATCH_ROWS {
        current := Max(1, current / 2);
        return;
      }
      if span >= current && rowCount <= TARGET_ROWS / 2 && elapsedMs <= FAST_LISTEN_MS {
        current := Min(ceiling, Max(current + 1, current * 2));
      }
    }
  }

  /**
   What moves the window, and by how much: 150 ms or 8192 rows halve it; 75 ms or less with 1024 rows or fewer
   double it, up to the ceiling, if the batch spanned the whole window; anything else leaves it.
   */
  lemma WindowMovesExactlyWhen(ceiling: int, x: nat, o: Observation)
    requires 1 <= x <= ceiling
    ensures var y := Observe(ceiling, x, o);
            && (y < x <==> x > 1 && (o == Empty || o.elapsedMs >= 150.0 || o.rowCount >= 8192))
            && (y > x <==> x < ceiling && o.Delivered? && o.elapsedMs <= 75.0 && o.rowCount <= 1024 && o.span >= x)
            && (y < x ==> y == x / 2)
            && (y > x ==> y == Min(ceiling, 2 * x))
  {
  }

  /** The first listen asks for 8 snapshots, or for the caller's limit if that is less, but at least for one. */
  lemma FirstWindow(maxSnapshots: int)
    ensures Ceiling(maxSnapshots) == Max(1, maxSnapshots)
    ensures Initial(Ceiling(maxSnapshots)) == Max(1, Min(8, maxSnapshots))
  {
  }

  // ------------------------------------------------------------------ amortised growth

  function Enlargements(ceiling: int, x: nat, history: seq<Observation>): nat
    requires 1 <= x <= ceiling
    decreases history
  {
    if history == [] then 0
    else
      var y := Observe(ceiling, x, history[0]);
      (if y > x then 1 else 0) + Enlargements(ceiling, y, history[1..])
  }

  function Reductions(ceiling: int, x: nat, history: seq<Observation>): nat
    requires 1 <= x <= ceiling
    decreases history
  {
    if history == [] then 0
    else
      var y := Observe(ceiling, x, history[0]);
      (if y < x then 1 else 0) + Reductions(ceiling, y, history[1..])
  }

  /** How many capped doublings lead from x to the ceiling. */
  function Doublings(ceiling: int, x: nat): nat
    requires 1 <= x <= ceiling
    decreases ceiling - x
  {
    if x == ceiling then 0 else 1 + Doublings(ceiling, Min(ceiling, 2 * x))
  }

  lemma {:induction false} DoublingsMonotone(ceiling: int, x: nat, y: nat)
    requires 1 <= x <= y <= ceiling
    ensures Doublings(ceiling, y) <= Doublings(ceiling, x)
    decreases ceiling - x
  {
    if x < y && y < ceiling {
      DoublingsMonotone(ceiling, Min(ceiling, 2 * x), Min(ceiling, 2 * y));
    }
  }

  /** Halving costs at most two doublings: two doublings of x / 2 are back at x or beyond. */
  lemma HalvingCost(ceiling: int, x: nat)
    requires 2 <= x <= ceiling
    ensures Doublings(ceiling, x / 2) <= 2 + Doublings(ceiling, x)
  {
    var once := Min(ceiling, 2 * (x / 2));
    var twice := Min(ceiling, 2 * once);
    DoublingsMonotone(ceiling, x, twice);
    if once < ceiling {
      assert Doublings(ceiling, once) == 1 + Doublings(ceiling, twice);
    }
  }

  /**
   Every enlargement is paid for: over any history, the enlargements and the doublings still missing at the
   end are at most the doublings missing at the start plus two for every reduction.
   */
  lemma {:induction false} GrowthIsAmortised(ceiling: int, x: nat, history: seq<Observation>)
    requires 1 <= x <= ceiling
    ensures Enlargements(ceiling, x, history) + Doublings(ceiling, ObserveAll(ceiling, x, history))
            <= Doublings(ceiling, x) + 2 * Reductions(ceiling, x, history)
    decreases history
  {
    if history != [] {
      var y := Observe(ceiling, x, history[0]);
      GrowthIsAmortised(ceiling, y, history[1..]);
      if y > x {
        assert y == Min(ceiling, 2 * x);
      } else if y < x {
        HalvingCost(ceiling, x);
      }
    }
  }

  /** The bound for a consumer's whole life, from the initial window. */
  lemma GrowthFromStart(maxSnapshots: int, history: seq<Observation>)
    ensures var c := Ceiling(maxSnapshots);
            Enlargements(c, Initial(c), history)
            <= Doublings(c, Initial(c)) + 2 * Reductions(c, Initial(c), history)
  {
    var c := Ceiling(maxSnapshots);
    GrowthIsAmortised(c, Initial(c), history);
  }

  /** n rounds of one empty listen and two light, full ones. */
  function Sawtooth(n: nat): seq<Observation> {
    if n == 0 then [] else [Empty, Delivered(1, 3, 0.0), Delivered(1, 3, 0.0)] + Sawtooth(n - 1)
  }

  /** Two enlargements for every reduction is really reached, for any number of reductions. */
  lemma {:induction false} AmortisedBoundIsTight(n: nat)
    ensures Doublings(3, Initial(3)) == 0
    ensures Enlargements(3, 3, Sawtooth(n)) == 2 * n && Reductions(3, 3, Sawtooth(n)) == n
  {
    if n > 0 {
      var s := Sawtooth(n);
      assert s[0] == Empty && s[1] == s[2] == Delivered(1, 3, 0.0);
      assert s[1..][1..][1..] == Sawtooth(n - 1);
      assert s[1..][0] == s[1] && s[1..][1..][0] == s[2];
      AmortisedBoundIsTight(n - 1);
      assert Observe(3, 3, Empty) == 1 && Observe(3, 1, s[1]) == 2 && Observe(3, 2, s[2]) == 3;
      assert Enlargements(3, 1, s[1..]) == 2 + Enlargements(3, 3, Sawtooth(n - 1));
      assert Reductions(3, 1, s[1..]) == Reductions(3, 3, Sawtooth(n - 1));
    }
  }

  // ------------------------------------------------------------------ closed forms

  function Pow2(k: nat): (p: nat) ensures p >= 1 { if k == 0 then 1 else 2 * Pow2(k - 1) }

  lemma Times(p: nat, a: int, b: int)
    ensures a <= b ==> p * a <= p * b
  {
  }

  lemma QuotientUnique(p: nat, a: nat, b: nat, c: nat, d: nat)
    requires p * a + b == p * c + d && b < p && d < p
    ensures a == c
  {
    Times(p, a + 1, c);
    Times(p, c + 1, a);
  }

  lemma DivideTwice(x: nat, p: nat)
    requires p >= 1
    ensures x / 2 / p == x / (2 * p)
  {
    var q, r := x / (2 * p), x % (2 * p);
    assert x == 2 * (p * q) + r;
    QuotientUnique(p, x / 2 / p, x / 2 % p, q, r / 2);
  }

  lemma SmallQuotient(x: nat, q: nat)
    requires 1 <= q && x <= q
    ensures x / q <= 1
  {
    Times(q, 2, x / q);
  }

  predicate AllReduce(history: seq<Observation>) {
    forall i :: 0 <= i < |history| ==> history[i].Empty? || Slow(history[i])
  }

  /** k empty or slow listens divide the window by 2^k, down to one. */
  lemma {:induction false} QuietClosedForm(ceiling: int, x: nat, history: seq<Observation>)
    requires 1 <= x <= ceiling && AllReduce(history)
    ensures ObserveAll(ceiling, x, history) == Max(1, x / Pow2(|history|))
    decreases history
  {
    if history != [] {
      QuietClosedForm(ceiling, Halved(x), history[1..]);
      DivideTwice(x, Pow2(|history| - 1));
      if x == 1 {
        assert 1 / Pow2(|history| - 1) <= 1 && 1 / Pow2(|history|) == 0;
      }
    }
  }

  predicate AllFill(ceiling: int, history: seq<Observation>) {
    forall i :: 0 <= i < |history| ==> Light(history[i]) && history[i].span >= ceiling
  }

  lemma CappedProduct(c: nat, y: nat, p: nat)
    requires p >= 1
    ensures Min(c, Min(c, y) * p) == Min(c, y * p)
  {
    if c < y {
      Times(p, c, y);
      Times(c, 1, p);
    }
  }

  lemma Reassociate(x: nat, p: nat)
    ensures x * (2 * p) == (2 * x) * p
  {
  }

  /** k fast, small listens that fill the ceiling multiply the window by 2^k, up to the ceiling. */
  lemma {:induction false} BusyClosedForm(ceiling: int, x: nat, history: seq<Observation>)
    requires 1 <= x <= ceiling && AllFill(ceiling, history)
    ensures ObserveAll(ceiling, x, history) == Min(ceiling, x * Pow2(|history|))
    decreases history
  {
    if history != [] {
      var p := Pow2(|history| - 1);
      var y := Observe(ceiling, x, history[0]);
      assert y == Min(ceiling, 2 * x);
      BusyClosedForm(ceiling, y, history[1..]);
      CappedProduct(ceiling, 2 * x, p);
      Reassociate(x, p);
    }
  }

  /** From any window, k quiet listens reach one as soon as 2^k covers the ceiling. */
  lemma FloorReached(ceiling: int, x: nat, history: seq<Observation>)
    requires 1 <= x <= ceiling <= Pow2(|history|) && AllReduce(history)
    ensures ObserveAll(ceiling, x, history) == 1
  {
    QuietClosedForm(ceiling, x, history);
    SmallQuotient(x, Pow2(|history|));
  }

  lemma CoveredProduct(c: nat, x: nat, p: nat)
    requires 1 <= x && c <= p
    ensures c <= x * p
  {
    Times(p, 1, x);
  }

  /** From any window, k light and full listens reach the ceiling as soon as 2^k covers it. */
  lemma CeilingReached(ceiling: int, x: nat, history: seq<Observation>)
    requires 1 <= x <= ceiling <= Pow2(|history|) && AllFill(ceiling, history)
    ensures ObserveAll(ceiling, x, history) == ceiling
  {
    BusyClosedForm(ceiling, x, history);
    CoveredProduct(ceiling, x, Pow2(|history|));
  }

  /**
   A larger window does not always stay larger.  One observation puts the smaller window strictly ahead
   exactly when the batch fills the smaller window but not the larger one, and doubling overshoots.
   */
  lemma OrderKeptExactlyWhen(ceiling: int, x: nat, y: nat, o: Observation)
    requires 1 <= x <= y <= ceiling
    ensures Observe(ceiling, x, o) <= Observe(ceiling, y, o)
            <==> !(Light(o) && x <= o.span < y && y < 2 * x && y < ceiling)
  {
  }

  lemma OrderLostExample()
    ensures Observe(100, 3, Delivered(1, 3, 0.0)) == 6 && Observe(100, 4, Delivered(1, 3, 0.0)) == 4
  {
  }
}
