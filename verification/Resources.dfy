/** Entering and leaving a consumer: its sinks and its connection. */
module Resources {
  import opened Prelude

  /** A connection is the caller's, or the n-th one the consumer derived. */
  datatype Conn = Given(id: int) | Derived(n: nat)

  datatype Act =
    | OpenSink(sink: nat)        // open() returned
    | OpenFailed(sink: nat)      // open() raised
    | CloseSink(sink: nat)       // close() was called; what it raises is logged and swallowed
    | Derive(conn: Conn)
    | CloseConn(conn: Conn)

  /** How one __enter__ goes: client construction, the guarded set-up, and the first sink that fails to open. */
  datatype Entry = Entry(clientOk: bool, setupOk: bool, failAt: Option<nat>)

  datatype State = State(
    isOpen: bool, client: Option<Conn>, connection: Option<Conn>, derived: Option<Conn>, derivations: nat,
    log: seq<Act>)

  /** close() on sinks below n, last first. */
  function Closes(n: nat): seq<Act> { if n == 0 then [] else [CloseSink(n - 1)] + Closes(n - 1) }

  function Opens(n: nat): seq<Act> { if n == 0 then [] else Opens(n - 1) + [OpenSink(n - 1)] }

  /** What opening the sinks logs: all of them, or those before the failing one and then its rollback. */
  function OpenLog(sinks: nat, failAt: Option<nat>): seq<Act> {
    if failAt.Some? && failAt.value < sinks then
      Opens(failAt.value) + [OpenFailed(failAt.value)] + Closes(failAt.value)
    else Opens(sinks)
  }

  predicate OpensAll(sinks: nat, failAt: Option<nat>) { failAt.None? || sinks <= failAt.value }

  function ClosedDerived(s: State): State {
    if s.derived.None? then s else s.(derived := None, log := s.log + [CloseConn(s.derived.value)])
  }

  /** Close every sink, opened or not, then the derived connection. */
  function Released(sinks: nat, s: State): State { ClosedDerived(s.(log := s.log + Closes(sinks))) }

  /** Pin the connection and the client; false when building the client raised. */
  function Pinned(override: Option<Conn>, e: Entry, s: State): (State, bool) {
    if s.client.Some? then (s.(connection := s.client), true)
    else
      var conn := if override.Some? then override.value else Derived(s.derivations);
      var s' := if override.Some? then s.(connection := Some(conn))
                else s.(connection := Some(conn), derived := Some(conn), derivations := s.derivations + 1,
                        log := s.log + [Derive(conn)]);
      if e.clientOk then (s'.(client := Some(conn)), true) else (s', false)
  }

  /** __enter__; true when it returned. */
  function EnterState(sinks: nat, override: Option<Conn>, e: Entry, s: State): (State, bool) {
    var (s1, ok) := Pinned(override, e, s);
    if !ok then (s1, false)
    else if !e.setupOk then (Released(sinks, s1), false)
    else
      var s2 := s1.(log := s1.log + OpenLog(sinks, e.failAt));
      if OpensAll(sinks, e.failAt) then (s2.(isOpen := true), true) else (Released(sinks, s2), false)
  }

  /** __exit__ */
  function ExitState(sinks: nat, s: State): State { Released(sinks, s.(isOpen := false)) }

  class Consumer {
    const sinks: nat
    const override: Option<Conn>
    var isOpen: bool
    var client: Option<Conn>
    var connection: Option<Conn>
    var derived: Option<Conn>
    var derivations: nat
    var log: seq<Act>

    constructor (sinks: nat, override: Option<Conn>, client: Option<Conn>)
      ensures this.sinks == sinks && this.override == override && View() == Fresh(client)
    {
      this.sinks, this.override, this.client := sinks, override, client;
      isOpen, connection, derived, derivations, log := false, None, None, 0, [];
    }

    function View(): State reads this { State(isOpen, client, connection, derived, derivations, log) }

    method OpenSinks(failAt: Option<nat>) returns (ok: bool)
      modifies this`log
      ensures ok == OpensAll(sinks, failAt)
      ensures log == old(log) + OpenLog(sinks, failAt)
    {
      for i := 0 to sinks
        invariant failAt.Some? ==> i <= failAt.value
        invariant log == old(log) + Opens(i)
      {
        if failAt == Some(i) {
          log := log + [OpenFailed(i)];
          ghost var failed := log;
          for k := i downto 0
            invariant log + Closes(k) == failed + Closes(i)
          {
            log := log + [CloseSink(k)];
          }
          assert log == failed + Closes(i);
          assert log == old(log) + (Opens(i) + [OpenFailed(i)] + Closes(i));
          return false;
        }
        log := log + [OpenSink(i)];
      }
      return true;
    }

    method CloseSinksQuietly()
      modifies this`log
      ensures log == old(log) + Closes(sinks)
    {
      for k := sinks downto 0
        invariant log + Closes(k) == old(log) + Closes(sinks)
      {
        log := log + [CloseSink(k)];
      }
    }

    method CloseDerivedConnection()
      modifies this`log, this`derived
      ensures View() == ClosedDerived(old(View()))
    {
      if derived.None? {
        return;
      }
      var conn := derived.value;
      derived := None;
      log := log + [CloseConn(conn)];
    }

    method Enter(e: Entry) returns (ok: bool)
      modifies this
      ensures (View(), ok) == EnterState(sinks, override, e, old(View()))
    {
      if client.None? {
        if override.Some? {
          connection := override;
        } else {
          connection := Some(Derived(derivations));
          derivations := derivations + 1;
          log := log + [Derive(connection.value)];
          derived := connection;
        }
        if !e.clientOk {
          return false;
        }
        client := connection;
      } else {
        connection := client;
      }
      ok := e.setupOk;
      if ok {
        ok := OpenSinks(e.failAt);
      }
      if !ok {
        CloseSinksQuietly();
        CloseDerivedConnection();
        return;
      }
      isOpen := true;
    }

    method Exit()
      modifies this
      ensures View() == ExitState(sinks, old(View()))
    {
      isOpen := false;
      CloseSinksQuietly();
      CloseDerivedConnection();
    }
  }

  // ------------------------------------------------------------------ over any sequence of calls

  datatype Call = Enter(entry: Entry) | Exit

  function Fresh(client: Option<Conn>): State { State(false, client, None, None, 0, []) }

  function Called(sinks: nat, override: Option<Conn>, c: Call, s: State): State {
    match c
    case Enter(e) => EnterState(sinks, override, e, s).0
    case Exit => ExitState(sinks, s)
  }

  function AfterCalls(sinks: nat, override: Option<Conn>, calls: seq<Call>, s: State): State
    decreases calls
  {
    if calls == [] then s else AfterCalls(sinks, override, calls[1..], Called(sinks, override, calls[0], s))
  }

  /** What a connection's history looks like between calls. */
  ghost predicate ConnInvariant(s: State, c: Conn) {
    && Count(s.log, CloseConn(c)) <= 1
    && (c.Given? ==> Count(s.log, CloseConn(c)) == 0)
    && (c.Derived? && c.n >= s.derivations ==> Count(s.log, CloseConn(c)) == 0)
    && (s.derived == Some(c) ==> Count(s.log, CloseConn(c)) == 0)
    && (s.derived.Some? ==> s.derived.value.Derived? && s.derived.value.n < s.derivations)
  }

  lemma {:induction false} SinkLogsCloseNoConn(n: nat, c: Conn)
    ensures Count(Opens(n), CloseConn(c)) == 0 && Count(Closes(n), CloseConn(c)) == 0
  {
    if n > 0 {
      SinkLogsCloseNoConn(n - 1, c);
      CountConcat(Opens(n - 1), [OpenSink(n - 1)], CloseConn(c));
      CountConcat([CloseSink(n - 1)], Closes(n - 1), CloseConn(c));
    }
  }

  /** Releasing closes the derived connection once and no other. */
  lemma ReleasedCloses(sinks: nat, s: State, c: Conn)
    ensures Released(sinks, s).derived == None
    ensures Count(Released(sinks, s).log, CloseConn(c))
            == Count(s.log, CloseConn(c)) + if s.derived == Some(c) then 1 else 0
  {
    SinkLogsCloseNoConn(sinks, c);
    CountConcat(s.log, Closes(sinks), CloseConn(c));
    if s.derived.Some? {
      CountConcat(s.log + Closes(sinks), [CloseConn(s.derived.value)], CloseConn(c));
    }
  }

  lemma OpenLogClosesNoConn(sinks: nat, failAt: Option<nat>, log: seq<Act>, c: Conn)
    ensures Count(log + OpenLog(sinks, failAt), CloseConn(c)) == Count(log, CloseConn(c))
  {
    CountConcat(log, OpenLog(sinks, failAt), CloseConn(c));
    SinkLogsCloseNoConn(sinks, c);
    if failAt.Some? {
      SinkLogsCloseNoConn(failAt.value, c);
      CountConcat(Opens(failAt.value) + [OpenFailed(failAt.value)], Closes(failAt.value), CloseConn(c));
      CountConcat(Opens(failAt.value), [OpenFailed(failAt.value)], CloseConn(c));
    }
  }

  lemma PinnedKeepsConn(override: Option<Conn>, e: Entry, s: State, c: Conn)
    requires ConnInvariant(s, c)
    ensures ConnInvariant(Pinned(override, e, s).0, c)
  {
    CountConcat(s.log, [Derive(Derived(s.derivations))], CloseConn(c));
  }

  lemma CallKeepsConn(sinks: nat, override: Option<Conn>, call: Call, s: State, c: Conn)
    requires ConnInvariant(s, c)
    ensures ConnInvariant(Called(sinks, override, call, s), c)
  {
    match call
    case Exit => ReleasedCloses(sinks, s.(isOpen := false), c);
    case Enter(e) =>
      PinnedKeepsConn(override, e, s, c);
      var s1 := Pinned(override, e, s).0;
      var s2 := s1.(log := s1.log + OpenLog(sinks, e.failAt));
      ReleasedCloses(sinks, s1, c);
      OpenLogClosesNoConn(sinks, e.failAt, s1.log, c);
      ReleasedCloses(sinks, s2, c);
  }

  /**
   Over any sequence of enters and exits, with any failures, every connection is closed at most once, and
   one the caller supplied is never closed.
   */
  lemma {:induction false} ConnectionsClosedAtMostOnce(
    sinks: nat, override: Option<Conn>, calls: seq<Call>, s: State, c: Conn)
    requires ConnInvariant(s, c)
    ensures var s' := AfterCalls(sinks, override, calls, s);
            && ConnInvariant(s', c)
            && Count(s'.log, CloseConn(c)) <= (if c.Given? then 0 else 1)
    decreases calls
  {
    if calls != [] {
      CallKeepsConn(sinks, override, calls[0], s, c);
      ConnectionsClosedAtMostOnce(sinks, override, calls[1..], Called(sinks, override, calls[0], s), c);
    }
  }

  /** Every exit closes the derived connection, if there is one. */
  lemma ExitClosesDerived(sinks: nat, s: State, c: Conn)
    requires ConnInvariant(s, c) && s.derived == Some(c)
    ensures ExitState(sinks, s).derived == None && Count(ExitState(sinks, s).log, CloseConn(c)) == 1
  {
    ReleasedCloses(sinks, s.(isOpen := false), c);
  }

  /** A failure inside the guarded part of __enter__ closes the derived connection before it propagates. */
  lemma FailedEnterClosesDerived(sinks: nat, override: Option<Conn>, e: Entry, s: State, c: Conn)
    requires ConnInvariant(s, c) && (e.clientOk || s.client.Some?)
    requires !EnterState(sinks, override, e, s).1 && Pinned(override, e, s).0.derived == Some(c)
    ensures var s' := EnterState(sinks, override, e, s).0;
            s'.derived == None && Count(s'.log, CloseConn(c)) == 1 && s'.isOpen == s.isOpen
  {
    PinnedKeepsConn(override, e, s, c);
    var s1 := Pinned(override, e, s).0;
    ReleasedCloses(sinks, s1, c);
    OpenLogClosesNoConn(sinks, e.failAt, s1.log, c);
    ReleasedCloses(sinks, s1.(log := s1.log + OpenLog(sinks, e.failAt)), c);
  }

  // ------------------------------------------------------------------ entering again

  /** A connection or client that the caller supplies is not one the consumer derived. */
  predicate Supplied(conn: Option<Conn>) { conn.None? || conn.value.Given? }

  /** A client kept from an earlier enter: its derived connection is either still held, or has been closed. */
  ghost predicate ClientInvariant(s: State) {
    !Supplied(s.client) ==>
      && s.client.value.n < s.derivations
      && (s.derived == s.client || s.derived == None)
      && Count(s.log, CloseConn(s.client.value)) == if s.derived == s.client then 0 else 1
  }

  lemma ReleaseKeepsClient(sinks: nat, s: State)
    requires ClientInvariant(s)
    ensures ClientInvariant(Released(sinks, s))
  {
    if s.client.Some? {
      ReleasedCloses(sinks, s, s.client.value);
    }
  }

  lemma PinnedKeepsClient(override: Option<Conn>, e: Entry, s: State)
    requires Supplied(override) && ClientInvariant(s) && ConnInvariant(s, Derived(s.derivations))
    ensures ClientInvariant(Pinned(override, e, s).0)
  {
    CountConcat(s.log, [Derive(Derived(s.derivations))], CloseConn(Derived(s.derivations)));
  }

  lemma OpeningKeepsClient(sinks: nat, failAt: Option<nat>, s: State)
    requires ClientInvariant(s)
    ensures ClientInvariant(s.(log := s.log + OpenLog(sinks, failAt)))
  {
    if s.client.Some? {
      OpenLogClosesNoConn(sinks, failAt, s.log, s.client.value);
    }
  }

  lemma CallKeepsClient(sinks: nat, override: Option<Conn>, call: Call, s: State)
    requires Supplied(override) && ClientInvariant(s) && ConnInvariant(s, Derived(s.derivations))
    ensures ClientInvariant(Called(sinks, override, call, s))
  {
    if call.Exit? {
      ReleaseKeepsClient(sinks, s.(isOpen := false));
    } else {
      var e := call.entry;
      PinnedKeepsClient(override, e, s);
      var s1 := Pinned(override, e, s).0;
      ReleaseKeepsClient(sinks, s1);
      OpeningKeepsClient(sinks, e.failAt, s1);
      var s2 := s1.(log := s1.log + OpenLog(sinks, e.failAt));
      ReleaseKeepsClient(sinks, s2);
      assert ClientInvariant(s2.(isOpen := true)) == ClientInvariant(s2);
    }
  }

  lemma {:induction false} CallsKeepClient(sinks: nat, override: Option<Conn>, calls: seq<Call>, s: State)
    requires Supplied(override) && ClientInvariant(s) && forall c :: ConnInvariant(s, c)
    ensures var s' := AfterCalls(sinks, override, calls, s);
            ClientInvariant(s') && forall c :: ConnInvariant(s', c)
    decreases calls
  {
    if calls != [] {
      var s' := Called(sinks, override, calls[0], s);
      CallKeepsClient(sinks, override, calls[0], s);
      forall c ensures ConnInvariant(s', c) {
        CallKeepsConn(sinks, override, calls[0], s, c);
      }
      CallsKeepClient(sinks, override, calls[1..], s');
    }
  }

  /**
   After any enters and exits, an enter that returns gives the `with` block a connection that is closed
   already exactly when the consumer still has the client of an earlier enter, on a connection it derived
   itself and has since released.
   */
  lemma EntersClosedExactlyWhen(sinks: nat, override: Option<Conn>, client: Option<Conn>, calls: seq<Call>, e: Entry)
    requires Supplied(override) && Supplied(client)
    ensures var s := AfterCalls(sinks, override, calls, Fresh(client));
            var (s', ok) := EnterState(sinks, override, e, s);
            ok ==>
              && s'.connection.Some?
              && (Count(s'.log, CloseConn(s'.connection.value)) > 0
                  <==> s.client.Some? && s.client.value.Derived? && s.derived == None)
  {
    CallsKeepClient(sinks, override, calls, Fresh(client));
    EnterUses(sinks, override, e, AfterCalls(sinks, override, calls, Fresh(client)));
  }

  /** An enter that returns closes no connection: the block's connection is closed if it was before. */
  lemma EnterUses(sinks: nat, override: Option<Conn>, e: Entry, s: State)
    requires Supplied(override) && ClientInvariant(s) && forall c :: ConnInvariant(s, c)
    ensures var (s', ok) := EnterState(sinks, override, e, s);
            ok ==>
              && s'.connection.Some?
              && (Count(s'.log, CloseConn(s'.connection.value)) > 0
                  <==> s.client.Some? && s.client.value.Derived? && s.derived == None)
  {
    var s1 := Pinned(override, e, s).0;
    if s1.connection.Some? {
      var c := s1.connection.value;
      assert ConnInvariant(s, c);
      CountConcat(s.log, [Derive(c)], CloseConn(c));
      OpenLogClosesNoConn(sinks, e.failAt, s1.log, c);
    }
  }

  /** So one `with` block after another on the same consumer is enough, unless the caller gave a connection. */
  lemma ReenteredConsumerIsClosed(sinks: nat, first: Entry, second: Entry)
    requires first.clientOk && first.setupOk && OpensAll(sinks, first.failAt)
    requires second.setupOk && OpensAll(sinks, second.failAt)
    ensures var s := AfterCalls(sinks, None, [Enter(first), Exit], Fresh(None));
            var (s', ok) := EnterState(sinks, None, second, s);
            ok && s'.connection == Some(Derived(0)) && Count(s'.log, CloseConn(Derived(0))) > 0
  {
    var s1 := Called(sinks, None, Enter(first), Fresh(None));
    var s := Called(sinks, None, Exit, s1);
    assert [Enter(first), Exit][1..] == [Exit];
    assert AfterCalls(sinks, None, [Exit], s1) == s;
    EntersClosedExactlyWhen(sinks, None, None, [Enter(first), Exit], second);
  }

  // ------------------------------------------------------------------ the connection of a `with` block

  /** The client is the caller's, or one on the caller's connection, or one on a derived connection. */
  ghost predicate ClientFrom(override: Option<Conn>, client: Option<Conn>, s: State) {
    if client.Some? then s.client == client && s.derivations == 0 && s.derived == None
    else if override.Some? then (s.client == None || s.client == override) && s.derivations == 0 && s.derived == None
    else s.client.Some? ==> s.client.value.Derived?
  }

  lemma {:induction false} CallsKeepClientFrom(
    sinks: nat, override: Option<Conn>, client: Option<Conn>, calls: seq<Call>, s: State)
    requires ClientFrom(override, client, s)
    ensures ClientFrom(override, client, AfterCalls(sinks, override, calls, s))
    decreases calls
  {
    if calls != [] {
      CallsKeepClientFrom(sinks, override, client, calls[1..], Called(sinks, override, calls[0], s));
    }
  }

  /**
   After any enters and exits, an enter that returns opens the consumer, and the block's connection is the
   caller's client's if there is one, else the caller's connection if there is one, else one that the consumer
   derived; with either of the caller's, the consumer never derives any.
   */
  lemma EnterUsesWhatWasGiven(sinks: nat, override: Option<Conn>, client: Option<Conn>, calls: seq<Call>, e: Entry)
    ensures var s := AfterCalls(sinks, override, calls, Fresh(client));
            var (s', ok) := EnterState(sinks, override, e, s);
            && (ok ==> s'.isOpen && s'.connection.Some?)
            && (ok && client.Some? ==> s'.connection == client)
            && (ok && client.None? && override.Some? ==> s'.connection == override)
            && (ok && client.None? && override.None? ==> s'.connection.value.Derived?)
            && (client.Some? || override.Some? ==> s'.derivations == 0)
            && (!ok ==> s'.isOpen == s.isOpen)
  {
    CallsKeepClientFrom(sinks, override, client, calls, Fresh(client));
  }

  /** When an enter returns: nothing it calls fails; a client from an earlier enter needs no construction. */
  lemma EnterReturnsExactlyWhen(sinks: nat, override: Option<Conn>, e: Entry, s: State)
    ensures EnterState(sinks, override, e, s).1 <==>
              && (s.client.None? ==> e.clientOk) && e.setupOk
              && !(e.failAt.Some? && e.failAt.value < sinks)
  {
  }

  /**
   An exit closes every sink, last first, then the derived connection if there is one, and nothing else; the
   consumer is closed afterwards.
   */
  lemma ExitReleasesInOrder(sinks: nat, s: State) returns (closes: seq<Act>)
    ensures var s' := ExitState(sinks, s);
            && !s'.isOpen && s'.derived == None && s'.client == s.client
            && s'.log == s.log + closes + if s.derived.Some? then [CloseConn(s.derived.value)] else []
    ensures |closes| == sinks && forall k :: 0 <= k < sinks ==> closes[k] == CloseSink(sinks - 1 - k)
  {
    closes := Closes(sinks);
    assert sinks == 0 ==> closes == [];
    if sinks > 0 { SinkOrder(sinks, 0); }
    forall k | 0 <= k < sinks ensures closes[k] == CloseSink(sinks - 1 - k) {
      SinkOrder(sinks, k);
    }
  }

  /** An enter that returns opens every sink, in the order given, after deriving a connection if it needs one. */
  lemma EnterOpensInOrder(sinks: nat, override: Option<Conn>, e: Entry, s: State) returns (opens: seq<Act>)
    requires EnterState(sinks, override, e, s).1
    ensures var s' := EnterState(sinks, override, e, s).0;
            var derives := s.client.None? && override.None?;
            s'.log == s.log + (if derives then [Derive(Derived(s.derivations))] else []) + opens
    ensures |opens| == sinks && forall k :: 0 <= k < sinks ==> opens[k] == OpenSink(k)
  {
    opens := Opens(sinks);
    assert sinks == 0 ==> opens == [];
    if sinks > 0 { SinkOrder(sinks, 0); }
    forall k | 0 <= k < sinks ensures opens[k] == OpenSink(k) {
      SinkOrder(sinks, k);
    }
  }

  /**
   What an enter that raises leaves.  If building the client raised, nothing is closed, and a connection just
   derived stays; otherwise the last acts are those of an exit: every sink is closed, last first, opened or
   not, and then the derived connection.
   */
  lemma FailedEnterReleasesInOrder(sinks: nat, override: Option<Conn>, e: Entry, s: State)
    returns (before: seq<Act>, closes: seq<Act>)
    requires !EnterState(sinks, override, e, s).1
    ensures |closes| == sinks && forall k :: 0 <= k < sinks ==> closes[k] == CloseSink(sinks - 1 - k)
    ensures var s' := EnterState(sinks, override, e, s).0;
            var derived := if s.client.None? && override.None? then Some(Derived(s.derivations)) else s.derived;
            if s.client.None? && !e.clientOk then
              && s'.derived == derived && s'.client == None
              && s'.log == s.log + if override.None? then [Derive(Derived(s.derivations))] else []
            else
              && s'.derived == None && s.log <= before
              && s'.log == before + closes + if derived.Some? then [CloseConn(derived.value)] else []
  {
    var s1 := Pinned(override, e, s).0;
    var s2 := if e.setupOk then s1.(log := s1.log + OpenLog(sinks, e.failAt)) else s1;
    before := s2.log;
    closes := ExitReleasesInOrder(sinks, s2);
  }

  // ------------------------------------------------------------------ sinks

  /** Every open() that returned is followed by a close() of the same sink. */
  ghost predicate EveryOpenIsClosed(log: seq<Act>) {
    forall i :: 0 <= i < |log| && log[i].OpenSink? ==>
      exists j :: i < j < |log| && log[j] == CloseSink(log[i].sink)
  }

  ghost predicate SinksBelow(log: seq<Act>, sinks: nat) {
    forall i :: 0 <= i < |log| && log[i].OpenSink? ==> log[i].sink < sinks
  }

  lemma {:induction false} ClosesAll(n: nat)
    ensures forall k: nat :: k < n ==> CloseSink(k) in Closes(n)
    ensures forall i :: 0 <= i < |Closes(n)| ==> Closes(n)[i].CloseSink?
  {
    if n > 0 {
      ClosesAll(n - 1);
    }
  }

  lemma {:induction false} OpensOnlyBelow(n: nat)
    ensures SinksBelow(Opens(n), n)
  {
    if n > 0 {
      OpensOnlyBelow(n - 1);
    }
  }

  lemma ReleaseClosesOpens(sinks: nat, s: State)
    requires SinksBelow(s.log, sinks)
    ensures EveryOpenIsClosed(Released(sinks, s).log) && SinksBelow(Released(sinks, s).log, sinks)
  {
    ClosesAll(sinks);
    var log := Released(sinks, s).log;
    forall i | 0 <= i < |log| && log[i].OpenSink?
      ensures exists j :: i < j < |log| && log[j] == CloseSink(log[i].sink)
    {
      assert i < |s.log| && log[i] == s.log[i];
      var k :| 0 <= k < |Closes(sinks)| && Closes(sinks)[k] == CloseSink(log[i].sink);
      assert log[|s.log| + k] == Closes(sinks)[k];
    }
  }

  lemma OpenLogBelow(sinks: nat, failAt: Option<nat>)
    ensures SinksBelow(OpenLog(sinks, failAt), sinks)
  {
    OpensOnlyBelow(sinks);
    if failAt.Some? {
      OpensOnlyBelow(failAt.value);
      ClosesAll(failAt.value);
    }
  }

  /** What the sinks' history looks like between calls: outside a `with` block every open has its close. */
  ghost predicate SinkInvariant(sinks: nat, s: State) {
    SinksBelow(s.log, sinks) && (!s.isOpen ==> EveryOpenIsClosed(s.log))
  }

  lemma DeriveKeepsSinks(log: seq<Act>, a: Act)
    requires EveryOpenIsClosed(log) && !a.OpenSink?
    ensures EveryOpenIsClosed(log + [a])
  {
    forall i | 0 <= i < |log + [a]| && (log + [a])[i].OpenSink?
      ensures exists j :: i < j < |log + [a]| && (log + [a])[j] == CloseSink((log + [a])[i].sink)
    {
      var j :| i < j < |log| && log[j] == CloseSink(log[i].sink);
      assert (log + [a])[j] == log[j];
    }
  }

  lemma CallKeepsSinks(sinks: nat, override: Option<Conn>, c: Call, s: State)
    requires SinkInvariant(sinks, s)
    ensures SinkInvariant(sinks, Called(sinks, override, c, s))
  {
    match c
    case Exit => ReleaseClosesOpens(sinks, s.(isOpen := false));
    case Enter(e) =>
      var (s1, ok) := Pinned(override, e, s);
      if !s.isOpen && s1.log != s.log {
        DeriveKeepsSinks(s.log, s1.log[|s.log|]);
      }
      ReleaseClosesOpens(sinks, s1);
      OpenLogBelow(sinks, e.failAt);
      ReleaseClosesOpens(sinks, s1.(log := s1.log + OpenLog(sinks, e.failAt)));
  }

  /**
   Over any sequence of enters and exits, whichever opens fail, every sink that opened is later closed by the
   time the consumer is outside its `with` block.
   */
  lemma {:induction false} OpenedSinksAreClosed(sinks: nat, override: Option<Conn>, calls: seq<Call>, s: State)
    requires SinkInvariant(sinks, s)
    ensures SinkInvariant(sinks, AfterCalls(sinks, override, calls, s))
    decreases calls
  {
    if calls != [] {
      CallKeepsSinks(sinks, override, calls[0], s);
      OpenedSinksAreClosed(sinks, override, calls[1..], Called(sinks, override, calls[0], s));
    }
  }

  /** Sinks are opened in the order they were given and closed in the opposite order. */
  lemma {:induction false} SinkOrder(n: nat, k: nat)
    requires k < n
    ensures |Opens(n)| == |Closes(n)| == n
    ensures Opens(n)[k] == OpenSink(k) && Closes(n)[k] == CloseSink(n - 1 - k)
  {
    if n > 1 {
      SinkOrder(n - 1, if k < n - 1 then k else 0);
      SinkOrder(n - 1, if k > 0 then k - 1 else 0);
    }
  }

  lemma {:induction false} CloseCounts(n: nat, i: nat)
    ensures Count(Closes(n), CloseSink(i)) == if i < n then 1 else 0
  {
    if n > 0 {
      CloseCounts(n - 1, i);
      CountConcat([CloseSink(n - 1)], Closes(n - 1), CloseSink(i));
    }
  }

  lemma {:induction false} OpensCloseNothing(n: nat, i: nat)
    ensures Count(Opens(n), CloseSink(i)) == 0
  {
    if n > 0 {
      OpensCloseNothing(n - 1, i);
      CountConcat(Opens(n - 1), [OpenSink(n - 1)], CloseSink(i));
    }
  }

  lemma ReleasedClosesSink(sinks: nat, s: State, i: nat)
    requires i < sinks
    ensures Count(Released(sinks, s).log, CloseSink(i)) == Count(s.log, CloseSink(i)) + 1
  {
    CloseCounts(sinks, i);
    CountConcat(s.log, Closes(sinks), CloseSink(i));
    if s.derived.Some? {
      CountConcat(s.log + Closes(sinks), [CloseConn(s.derived.value)], CloseSink(i));
    }
  }

  lemma FailedOpenCloses(sinks: nat, failed: nat, log: seq<Act>, i: nat)
    requires failed < sinks
    ensures Count(log + OpenLog(sinks, Some(failed)), CloseSink(i))
            == Count(log, CloseSink(i)) + if i < failed then 1 else 0
  {
    CountConcat(log, OpenLog(sinks, Some(failed)), CloseSink(i));
    CountConcat(Opens(failed) + [OpenFailed(failed)], Closes(failed), CloseSink(i));
    CountConcat(Opens(failed), [OpenFailed(failed)], CloseSink(i));
    CloseCounts(failed, i);
    OpensCloseNothing(failed, i);
  }

  /**
   "Closed exactly once" fails on a failed open: sinks opened before the failing one are closed twice, and
   the others, never opened, are closed once.
   */
  lemma ClosesOnFailedOpen(sinks: nat, override: Option<Conn>, e: Entry, s: State, i: nat)
    requires e.clientOk && e.setupOk && e.failAt.Some? && e.failAt.value < sinks && i < sinks
    ensures Count(EnterState(sinks, override, e, s).0.log, CloseSink(i))
            == Count(s.log, CloseSink(i)) + if i < e.failAt.value then 2 else 1
  {
    var s1 := Pinned(override, e, s).0;
    CountConcat(s.log, [Derive(Derived(s.derivations))], CloseSink(i));
    FailedOpenCloses(sinks, e.failAt.value, s1.log, i);
    ReleasedClosesSink(sinks, s1.(log := s1.log + OpenLog(sinks, e.failAt)), i);
  }
}
