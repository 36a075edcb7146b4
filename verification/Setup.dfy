/** Creating or adopting the durable consumer on entry, under retry. */
module Setup {
  import opened Prelude
  import opened Retry

  /** The durable consumer: its cursor, and which creation made it. */
  datatype Durable = Durable(cursor: int, incarnation: nat)

  /** The server: the consumer of this name, if any, and how many have been created. */
  datatype Server = Server(consumer: Option<Durable>, created: nat)

  datatype StartAt = Now | At(snapshot: int)

  datatype OnExists = Error | Use | Replace

  /** A call may fail before or after it took effect. */
  datatype Fault = NoFault | Before(failure: Failure) | After(failure: Failure)

  /** What surrounds one attempt: the head a "now" start would see, the calls' faults, and the lease policy. */
  datatype Conditions = Conditions(head: int, release: Fault, drop: Fault, create: Fault, lease: Outcome<()>)

  datatype Answer = Done | Duplicate | Missing | Broken(failure: Failure)

  /** A consumer that starts at a snapshot has everything before it behind the cursor. */
  function Position(start: StartAt, head: int): int {
    match start
    case Now => head
    case At(snapshot) => snapshot - 1
  }

  /** The server once a consumer was created on it, at the head that the create saw. */
  function Created(start: StartAt, head: int, s: Server): Server {
    Server(Some(Durable(Position(start, head), s.created)), s.created + 1)
  }

  function Answered(fault: Fault): Answer { if fault.NoFault? then Done else Broken(fault.failure) }

  function Create(s: Server, start: StartAt, w: Conditions): (Server, Answer) {
    if w.create.Before? then (s, Broken(w.create.failure))
    else if s.consumer.Some? then (s, Duplicate)
    else (Created(start, w.head, s), Answered(w.create))
  }

  function Release(s: Server, w: Conditions): Answer {
    if w.release.Before? then Broken(w.release.failure)
    else if s.consumer.None? then Missing
    else Answered(w.release)
  }

  function Drop(s: Server, w: Conditions): (Server, Answer) {
    if w.drop.Before? then (s, Broken(w.drop.failure))
    else if s.consumer.None? then (s, Missing)
    else (s.(consumer := None), Answered(w.drop))
  }

  function AlreadyExists(name: string): Failure { Failure(["consumer '" + name + "' already exists"], true) }

  /** Force-release and drop, ignoring a missing consumer, then create. */
  function ReplaceOnce(name: string, start: StartAt, w: Conditions, s: Server): (Server, Outcome<()>) {
    var released := Release(s, w);
    if released.Broken? then (s, Raised(released.failure))
    else
      var (s1, dropped) := Drop(s, w);
      if dropped.Broken? then (s1, Raised(dropped.failure))
      else
        var (s2, created) := Create(s1, start, w);
        match created
        case Broken(failure) => (s2, Raised(failure))
        case Duplicate => (s2, Raised(AlreadyExists(name)))
        case _ => (s2, Returned(()))
  }

  /** One attempt of set-up followed by the lease policy, which "replace" skips. */
  function Attempt(name: string, policy: OnExists, start: StartAt, w: Conditions, s: Server): (Server, Outcome<()>) {
    if policy.Replace? then ReplaceOnce(name, start, w, s)
    else
      var (s', created) := Create(s, start, w);
      match created
      case Broken(failure) => (s', Raised(failure))
      case Duplicate => (s', if policy.Error? then Raised(AlreadyExists(name)) else w.lease)
      case _ => (s', w.lease)
  }

  /**
   When one attempt returns, and what it raises under "use".  "replace" needs every call that reaches the
   server to be answered, a missing consumer being an answer, and never asks for the lease; the other two
   need their create answered and the lease policy to return.
   */
  lemma AttemptReturnsExactlyWhen(name: string, policy: OnExists, start: StartAt, w: Conditions, s: Server)
    ensures var (s', o) := Attempt(name, policy, start, w, s);
            match policy
            case Use =>
              && (w.create.Before? ==> o == Raised(w.create.failure))
              && (s.consumer.None? && w.create.After? ==> o == Raised(w.create.failure))
              && (!w.create.Before? && (s.consumer.Some? || w.create.NoFault?) ==> o == w.lease)
            case Error => o.Returned? <==> s.consumer.None? && w.create.NoFault? && w.lease.Returned?
            case Replace =>
              o.Returned? <==>
                && w.create.NoFault? && !w.release.Before? && !w.drop.Before?
                && (s.consumer.Some? ==> w.release.NoFault? && w.drop.NoFault?)
  {
  }

  function SetUp(name: string, policy: OnExists, start: StartAt, conditions: nat -> Conditions): Operation<Server, ()> {
    (k: nat, s: Server) => Attempt(name, policy, start, conditions(k), s)
  }

  function Entered(name: string, policy: OnExists, start: StartAt, conditions: nat -> Conditions, s: Server)
    : Retried<Server, ()>
  {
    RetryFrom(SetUp(name, policy, start, conditions), s, 0, MAX_ATTEMPTS)
  }

  /** With "use", whatever fails and however often it is retried, an existing consumer is left untouched. */
  lemma UseKeepsExisting(name: string, start: StartAt, conditions: nat -> Conditions, s: Server)
    requires s.consumer.Some?
    ensures Entered(name, Use, start, conditions, s).state == s
  {
    KeepsExisting(name, Use, start, conditions, s, 0, MAX_ATTEMPTS);
  }

  lemma {:induction false} KeepsExisting(
    name: string, policy: OnExists, start: StartAt, conditions: nat -> Conditions, s: Server, k: nat, left: nat)
    requires s.consumer.Some? && !policy.Replace? && left >= 1
    ensures var r := RetryFrom(SetUp(name, policy, start, conditions), s, k, left);
            r.state == s && r.calls > k && (policy.Error? ==> r.outcome.Raised?)
    decreases left
  {
    var (s', o) := SetUp(name, policy, start, conditions)(k, s);
    assert (s', o) == Attempt(name, policy, start, conditions(k), s);
    if !(Decisive(o) || left == 1) {
      KeepsExisting(name, policy, start, conditions, s, k + 1, left - 1);
    }
  }

  /**
   An existing consumer is adopted only with its lease: every attempt but the last failed transiently, and the
   last one's lease policy, if its create reached the server at all, decides how set-up ends.
   */
  lemma UseAsksForLease(name: string, start: StartAt, conditions: nat -> Conditions, s: Server)
    requires s.consumer.Some?
    ensures var r := Entered(name, Use, start, conditions, s);
            && 1 <= r.calls <= MAX_ATTEMPTS
            && r.outcome == Adopted(conditions(r.calls - 1))
            && (forall i :: 0 <= i < r.calls - 1 ==>
                  Adopted(conditions(i)).Raised? && Transient(Adopted(conditions(i)).failure))
            && (r.outcome.Returned? || !Transient(r.outcome.failure) || r.calls == MAX_ATTEMPTS)
  {
    AdoptsFrom(name, start, conditions, s, 0, MAX_ATTEMPTS);
  }

  /** How an attempt to adopt an existing consumer ends: the duplicate is found, and then the lease asked for. */
  function Adopted(w: Conditions): Outcome<()> {
    if w.create.Before? then Raised(w.create.failure) else w.lease
  }

  lemma {:induction false} AdoptsFrom(
    name: string, start: StartAt, conditions: nat -> Conditions, s: Server, k: nat, left: nat)
    requires s.consumer.Some? && left >= 1
    ensures var r := RetryFrom(SetUp(name, Use, start, conditions), s, k, left);
            && k < r.calls <= k + left
            && r.outcome == Adopted(conditions(r.calls - 1))
            && (forall i :: k <= i < r.calls - 1 ==>
                  Adopted(conditions(i)).Raised? && Transient(Adopted(conditions(i)).failure))
            && (Decisive(r.outcome) || r.calls == k + left)
    decreases left
  {
    var (s', o) := SetUp(name, Use, start, conditions)(k, s);
    assert (s', o) == Attempt(name, Use, start, conditions(k), s) == (s, Adopted(conditions(k)));
    if !(Decisive(o) || left == 1) {
      AdoptsFrom(name, start, conditions, s, k + 1, left - 1);
    }
  }

  /** The first attempt from k on whose create reached the server decides; every later one finds the consumer. */
  lemma {:induction false} CreatesFrom(
    name: string, policy: OnExists, start: StartAt, conditions: nat -> Conditions, s: Server, k: nat, left: nat)
    returns (n: nat)
    requires s.consumer.None? && !policy.Replace? && left >= 1
    ensures var r := RetryFrom(SetUp(name, policy, start, conditions), s, k, left);
            && k <= n <= r.calls
            && (forall i :: k <= i < n ==> conditions(i).create.Before?)
            && if n < r.calls then
                 !conditions(n).create.Before? && r.state == Created(start, conditions(n).head, s)
               else r.state == s && r.outcome.Raised?
    decreases left
  {
    var w := conditions(k);
    var (s', o) := SetUp(name, policy, start, conditions)(k, s);
    assert (s', o) == Attempt(name, policy, start, w, s);
    n := if w.create.Before? then k + 1 else k;
    if !(Decisive(o) || left == 1) {
      if w.create.Before? {
        n := CreatesFrom(name, policy, start, conditions, s, k + 1, left - 1);
      } else {
        KeepsExisting(name, policy, start, conditions, s', k + 1, left - 1);
      }
    }
  }

  /**
   With "use" and any start, "now" included, a missing consumer is created at most once, by the first attempt
   n whose create reached the server, and stands where that attempt's start put it, whatever failed before
   or after.  When no create reached the server nothing is created and set-up raises.
   */
  lemma UseCreatesOnce(name: string, start: StartAt, conditions: nat -> Conditions, s: Server) returns (n: nat)
    requires s.consumer.None?
    ensures var r := Entered(name, Use, start, conditions, s);
            && n <= r.calls
            && (forall i :: 0 <= i < n ==> conditions(i).create.Before?)
            && if n < r.calls then
                 !conditions(n).create.Before? && r.state == Created(start, conditions(n).head, s)
               else r.state == s && r.outcome.Raised?
  {
    n := CreatesFrom(name, Use, start, conditions, s, 0, MAX_ATTEMPTS);
  }

  /** With an integer start the attempt does not matter: the consumer stands just before that snapshot. */
  lemma UseCreatesAtSnapshot(name: string, snapshot: int, conditions: nat -> Conditions, s: Server)
    ensures var r := Entered(name, Use, At(snapshot), conditions, s);
            var ensured := if s.consumer.Some? then s else Created(At(snapshot), 0, s);
            && (r.state == s || r.state == ensured)
            && (r.outcome.Returned? ==> r.state == ensured)
  {
    if s.consumer.Some? {
      UseKeepsExisting(name, At(snapshot), conditions, s);
    } else {
      var n := UseCreatesOnce(name, At(snapshot), conditions, s);
    }
  }

  lemma {:induction false} ReplaceLeavesFresh(
    name: string, start: StartAt, conditions: nat -> Conditions, s: Server, k: nat, left: nat)
    requires left >= 1
    ensures var r := RetryFrom(SetUp(name, Replace, start, conditions), s, k, left);
            && k < r.calls <= k + left
            && s.created <= r.state.created
            && (r.outcome.Returned? ==>
                  && r.state.consumer.Some?
                  && r.state.consumer.value.cursor == Position(start, conditions(r.calls - 1).head)
                  && s.created <= r.state.consumer.value.incarnation
                  && r.state.created == r.state.consumer.value.incarnation + 1)
    decreases left
  {
    var (s', o) := SetUp(name, Replace, start, conditions)(k, s);
    assert (s', o) == Attempt(name, Replace, start, conditions(k), s);
    if !(Decisive(o) || left == 1) {
      ReplaceLeavesFresh(name, start, conditions, s', k + 1, left - 1);
    }
  }

  /**
   With "replace" and any start, a successful set-up leaves a consumer that this very set-up created, in its
   last attempt and at that attempt's start, wherever transient failures struck the release, the drop or the
   create.
   */
  lemma ReplaceIsFresh(name: string, start: StartAt, conditions: nat -> Conditions, s: Server)
    ensures var r := Entered(name, Replace, start, conditions, s);
            r.outcome.Returned? ==>
              && r.calls > 0 && r.state.consumer.Some?
              && r.state.consumer.value.cursor == Position(start, conditions(r.calls - 1).head)
              && r.state.consumer.value.incarnation >= s.created
  {
    ReplaceLeavesFresh(name, start, conditions, s, 0, MAX_ATTEMPTS);
  }

  /** An attempt during which no call fails. */
  predicate Clean(w: Conditions) {
    w.release.NoFault? && w.drop.NoFault? && w.create.NoFault? && w.lease.Returned?
  }

  /**
   Without failures one attempt is enough: "replace" and "use" succeed from every server state, and "error"
   exactly when the consumer is missing.
   */
  lemma CleanSetUp(name: string, policy: OnExists, start: StartAt, conditions: nat -> Conditions, s: Server)
    requires Clean(conditions(0))
    ensures var r := Entered(name, policy, start, conditions, s);
            var cursor := match start case Now => conditions(0).head case At(snapshot) => snapshot - 1;
            var created := Server(Some(Durable(cursor, s.created)), s.created + 1);
            match policy
            case Replace => r.outcome.Returned? && r.calls == 1 && r.state == created
            case Use =>
              r.outcome.Returned? && r.calls == 1 && r.state == if s.consumer.Some? then s else created
            case Error =>
              (r.outcome.Returned? <==> s.consumer.None?) && (s.consumer.None? ==> r.state == created)
  {
    var op := SetUp(name, policy, start, conditions);
    assert op(0, s) == Attempt(name, policy, start, conditions(0), s);
    if policy.Error? && s.consumer.Some? {
      KeepsExisting(name, Error, start, conditions, s, 0, MAX_ATTEMPTS);
    }
  }

  // ------------------------------------------------------------------ "error" does not survive a retry

  /** The create call was lost before it took effect, and the retry goes on. */
  predicate LostAndRetried(w: Conditions) { w.create.Before? && Transient(w.create.failure) }

  /** Every attempt up to k is lost, and attempt k creates the consumer and gets its lease. */
  predicate CreatesAt(conditions: nat -> Conditions, from: nat, k: nat) {
    && from <= k
    && (forall i :: from <= i < k ==> LostAndRetried(conditions(i)))
    && conditions(k).create.NoFault? && conditions(k).lease.Returned?
  }

  lemma LostShifts(conditions: nat -> Conditions, k: nat, n: nat)
    requires LostAndRetried(conditions(k))
    ensures CreatesAt(conditions, k + 1, n) <==> CreatesAt(conditions, k, n)
  {
  }

  lemma {:induction false} ErrorSucceedsFrom(
    name: string, start: StartAt, conditions: nat -> Conditions, s: Server, k: nat, left: nat)
    requires left >= 1
    ensures RetryFrom(SetUp(name, Error, start, conditions), s, k, left).outcome.Returned?
            <==> s.consumer.None? && exists n: nat :: n < k + left && CreatesAt(conditions, k, n)
    decreases left
  {
    var w := conditions(k);
    var (s', o) := SetUp(name, Error, start, conditions)(k, s);
    assert (s', o) == Attempt(name, Error, start, w, s);
    if s.consumer.Some? {
      KeepsExisting(name, Error, start, conditions, s, k, left);
    } else if LostAndRetried(w) {
      if left > 1 {
        var next := k + 1;
        ErrorSucceedsFrom(name, start, conditions, s, next, left - 1);
        forall n: nat ensures CreatesAt(conditions, next, n) <==> CreatesAt(conditions, k, n) {
          LostShifts(conditions, k, n);
        }
        assert RetryFrom(SetUp(name, Error, start, conditions), s, k, left)
            == RetryFrom(SetUp(name, Error, start, conditions), s, next, left - 1);
      } else {
        assert forall n: nat :: CreatesAt(conditions, k, n) ==> n != k;
      }
    } else {
      assert forall n: nat :: CreatesAt(conditions, k, n) ==> n == k;
      if w.create.NoFault? && w.lease.Returned? {
        assert CreatesAt(conditions, k, k);
      } else if !(Decisive(o) || left == 1) {
        KeepsExisting(name, Error, start, conditions, s', k + 1, left - 1);
      }
    }
  }

  /**
   With "error", set-up succeeds exactly when the consumer did not exist and the first attempt that reached
   the server went through without any failure: a retry after a create that took effect finds its own
   consumer and reports that it already exists.
   */
  lemma ErrorSucceedsExactlyWhen(name: string, start: StartAt, conditions: nat -> Conditions, s: Server)
    ensures Entered(name, Error, start, conditions, s).outcome.Returned?
            <==> s.consumer.None? && exists n: nat :: n < MAX_ATTEMPTS && CreatesAt(conditions, 0, n)
  {
    ErrorSucceedsFrom(name, start, conditions, s, 0, MAX_ATTEMPTS);
  }

  /** No failure but one: the reply to the first create is lost. */
  function OneLostReply(lost: Failure): nat -> Conditions {
    (k: nat) => Conditions(0, NoFault, NoFault, if k == 0 then After(lost) else NoFault, Returned(()))
  }

  /** One lost reply is enough: the consumer is created, and the caller is told that it already existed. */
  lemma ErrorIsNotTransparent(lost: Failure)
    requires Transient(lost)
    ensures var r := Entered("c", Error, At(7), OneLostReply(lost), Server(None, 0));
            r.state == Server(Some(Durable(6, 0)), 1) && r.outcome == Raised(AlreadyExists("c")) && r.calls == 2
  {
    var conditions := OneLostReply(lost);
    var op := SetUp("c", Error, At(7), conditions);
    var s1 := Server(Some(Durable(6, 0)), 1);
    assert op(0, Server(None, 0)) == Attempt("c", Error, At(7), conditions(0), Server(None, 0)) == (s1, Raised(lost));
    assert op(1, s1) == Attempt("c", Error, At(7), conditions(1), s1) == (s1, Raised(AlreadyExists("c")));
    NotTransient();
    assert RetryFrom(op, s1, 1, 4) == Retried(s1, Raised(AlreadyExists("c")), 2);
  }

  lemma NotTransient()
    ensures !Transient(AlreadyExists("c"))
  {
    var m := AlreadyExists("c").chain[0];
    assert m == "consumer 'c' already exists" && |m| == 27;
    var low := Lowered(m);
    assert low[0] == 'c' && low[1] == 'o' && low[2] == 'n' && low[3] == 's' && low[4] == 'u';
    assert low[5] == 'm' && low[6] == 'e' && low[7] == 'r' && low[8] == ' ' && low[9] == '\'';
    NoWordStarts(low);
  }

  /** Both known messages are too long to start after the first word, where no letter starts them. */
  lemma NoWordStarts(low: string)
    requires |low| == 27 && forall i :: 0 <= i < 10 ==> low[i] != 'd' && low[i] != 't'
    ensures !Contains(low, "database is locked") && !Contains(low, "thread::join failed")
  {
    forall i | 0 <= i <= 27
      ensures !OccursAt(low, i, "database is locked") && !OccursAt(low, i, "thread::join failed")
    {
      if i + 18 <= 27 {
        assert "database is locked"[0] == 'd' && "thread::join failed"[0] == 't';
        assert low[i..i + 18][0] == low[i];
        assert i + 19 <= 27 ==> low[i..i + 19][0] == low[i];
      }
    }
  }
}
