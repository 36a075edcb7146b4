/**
 CDCApp: several consumers in one process, each with its worker thread, and a shutdown that is bounded for
 all of them together.  Times are integer milliseconds.
 */
module App {
  import opened Prelude
  import opened Feed
  import Delivery
  import Loop
  import Runner

  /**
   A worker's state.  `counted` is run()'s own count of the commits that returned, `delivered` what health()
   reports.  The last four are written by the worker's own thread.
   */
  datatype WorkerState = WorkerState(
    entered: bool, stop: bool, launched: bool, finished: bool, counted: nat, delivered: nat, failed: bool)

  datatype Act = Enter(i: nat) | Launch(i: nat) | Stop(i: nat) | Join(i: nat) | Leave(i: nat, running: bool)

  datatype State = State(workers: seq<WorkerState>, isOpen: bool, stopping: bool, log: seq<Act>)

  predicate Alive(w: WorkerState) { w.launched && !w.finished }

  /**
   What happens during a shutdown: the time statements take before the i-th join and the i-th leave, and, for
   each thread, when it ends, if ever, whether run() then returns or raises, and the commits it still makes.
   */
  datatype Shutdown = Shutdown(
    joining: nat -> nat, leaving: nat -> nat, endsAt: nat -> Option<int>, returned: nat -> bool, more: nat -> nat)

  // ------------------------------------------------------------------ one worker at a time

  /** A worker is started once: a second start, even after its thread has ended, does nothing. */
  function Started(w: WorkerState): WorkerState {
    if w.launched then w else w.(stop := false, launched := true)
  }

  /** n more commits have returned inside run(). */
  function Committed(w: WorkerState, n: nat): WorkerState {
    if Alive(w) then w.(counted := w.counted + n) else w
  }

  /** The thread ends: run() returned its count, or raised. */
  function Ended(w: WorkerState, returned: bool): WorkerState {
    if !Alive(w) then w
    else w.(finished := true, delivered := if returned then w.counted else w.delivered, failed := !returned)
  }

  predicate EndsBy(env: Shutdown, i: nat, t: int) { env.endsAt(i).Some? && env.endsAt(i).value <= t }

  /** The i-th worker at time t. */
  function Aged(w: WorkerState, i: nat, t: int, env: Shutdown): WorkerState {
    if Alive(w) && EndsBy(env, i, t) then Ended(Committed(w, env.more(i)), env.returned(i)) else w
  }

  /** The time is t: the threads that end by then have ended. */
  function Elapsed(a: State, t: int, env: Shutdown): State {
    a.(workers := seq(|a.workers|, i requires 0 <= i < |a.workers| => Aged(a.workers[i], i, t, env)))
  }

  function Logged(a: State, i: nat, w: WorkerState, act: Act): State
    requires i < |a.workers|
  {
    a.(workers := a.workers[i := w], log := a.log + [act])
  }

  function StoppedAt(a: State, i: nat): State
    requires i < |a.workers|
  {
    Logged(a, i, a.workers[i].(stop := true), Stop(i))
  }

  function LaunchedAt(a: State, i: nat): State
    requires i < |a.workers|
  {
    if a.workers[i].launched then a else Logged(a, i, Started(a.workers[i]), Launch(i))
  }

  function EnteredAt(a: State, i: nat): State
    requires i < |a.workers|
  {
    if a.workers[i].entered then a else Logged(a, i, a.workers[i].(entered := true), Enter(i))
  }

  /** A worker's consumer is left, whether or not the worker's thread is still running. */
  function LeftAt(a: State, i: nat): State
    requires i < |a.workers|
  {
    if a.workers[i].entered then
      Logged(a, i, a.workers[i].(entered := false), Leave(i, Alive(a.workers[i])))
    else a
  }

  /** join(timeout) on a live thread returns when the thread ends or the time left is over. */
  function Waited(i: nat, now: int, deadline: int, env: Shutdown): int {
    var remaining := Max(0, deadline - now);
    now + if env.endsAt(i).Some? then Min(Max(0, env.endsAt(i).value - now), remaining) else remaining
  }

  /** One pass of the join loop, and the clock after it. */
  function JoinedAt(a: State, i: nat, now: int, deadline: int, env: Shutdown): (State, int)
    requires i < |a.workers|
  {
    var start := now + env.joining(i);
    var b := Elapsed(a, start, env);
    if !Alive(b.workers[i]) then (b, start)
    else
      var end := Waited(i, start, deadline, env);
      (Elapsed(b.(log := b.log + [Join(i)]), end, env), end)
  }

  // ------------------------------------------------------------------ all workers in registration order

  function StopFrom(a: State, i: nat): State
    requires i <= |a.workers|
    decreases |a.workers| - i
  {
    if i == |a.workers| then a else StopFrom(StoppedAt(a, i), i + 1)
  }

  function LaunchFrom(a: State, i: nat): State
    requires i <= |a.workers|
    decreases |a.workers| - i
  {
    if i == |a.workers| then a else LaunchFrom(LaunchedAt(a, i), i + 1)
  }

  /** Enter the consumers in order; one that raises leaves those before it entered.  True when none raised. */
  function EnterFrom(a: State, i: nat, failAt: Option<nat>): (State, bool)
    requires i <= |a.workers|
    decreases |a.workers| - i
  {
    if i == |a.workers| then (a, true)
    else if failAt == Some(i) && !a.workers[i].entered then (a, false)
    else EnterFrom(EnteredAt(a, i), i + 1, failAt)
  }

  /** The join loop, with one deadline for all workers. */
  function JoinFrom(a: State, i: nat, now: int, deadline: int, env: Shutdown): (State, int)
    requires i <= |a.workers|
    decreases |a.workers| - i
  {
    if i == |a.workers| then (a, now)
    else
      var (a', now') := JoinedAt(a, i, now, deadline, env);
      JoinFrom(a', i + 1, now', deadline, env)
  }

  /** The leave loop; nobody looks whether a thread is still running. */
  function LeaveFrom(a: State, i: nat, now: int, env: Shutdown): (State, int)
    requires i <= |a.workers|
    decreases |a.workers| - i
  {
    if i == |a.workers| then (a, now)
    else
      var now' := now + env.leaving(i);
      LeaveFrom(LeftAt(Elapsed(a, now', env), i), i + 1, now', env)
  }

  // ------------------------------------------------------------------ the app's operations

  function EnterApp(a: State, failAt: Option<nat>): (State, bool) {
    var (a', ok) := EnterFrom(a, 0, failAt);
    (if ok then a'.(isOpen := true) else a', ok)
  }

  /** run() up to the wait; false when it raises because the app is closed or empty. */
  function RunApp(a: State): (State, bool) {
    if !a.isOpen || a.workers == [] then (a, false) else (LaunchFrom(a, 0), true)
  }

  function Signalled(a: State): State { StopFrom(a.(stopping := true), 0) }

  /** Every worker asked to stop, at the time the shutdown starts. */
  function Stopped(a: State, now: int, env: Shutdown): (a': State)
    ensures |a'.workers| == |a.workers|
  {
    StopFromKeepsSize(a.(isOpen := false, stopping := true), 0);
    Elapsed(StopFrom(a.(isOpen := false, stopping := true), 0), now, env)
  }

  function ExitApp(a: State, timeout: nat, now: int, env: Shutdown): (State, int) {
    var (a1, clock) := JoinFrom(Stopped(a, now, env), 0, now, now + timeout, env);
    var (a2, clock') := LeaveFrom(a1, 0, clock, env);
    (a2.(stopping := false), clock')
  }

  lemma {:induction false} StopFromKeepsSize(a: State, i: nat)
    requires i <= |a.workers|
    ensures |StopFrom(a, i).workers| == |a.workers|
    decreases |a.workers| - i
  {
    if i < |a.workers| {
      StopFromKeepsSize(StoppedAt(a, i), i + 1);
    }
  }

  // ------------------------------------------------------------------ the objects

  class Worker {
    var entered: bool
    var stop: bool
    var launched: bool
    var finished: bool
    var counted: nat
    var delivered: nat
    var failed: bool

    constructor ()
      ensures View() == WorkerState(false, false, false, false, 0, 0, false)
    {
      entered, stop, launched, finished, counted, delivered, failed := false, false, false, false, 0, 0, false;
    }

    function View(): WorkerState
      reads this
    {
      WorkerState(entered, stop, launched, finished, counted, delivered, failed)
    }

    /** True when this call entered the consumer; false when it was entered already. */
    method Enter() returns (now: bool)
      modifies this
      ensures now == !old(View()).entered && View() == old(View()).(entered := true)
    {
      now := !entered;
      entered := true;
    }

    method Leave() returns (now: bool)
      modifies this
      ensures now == old(View()).entered && View() == old(View()).(entered := false)
    {
      now := entered;
      entered := false;
    }

    method Start() returns (now: bool)
      modifies this
      ensures now == !old(View()).launched && View() == Started(old(View()))
    {
      if launched {
        return false;
      }
      stop := false;
      launched := true;
      return true;
    }

    method RequestStop()
      modifies this
      ensures View() == old(View()).(stop := true)
    {
      stop := true;
    }

    method IsAlive() returns (alive: bool)
      ensures alive == Alive(View())
    {
      return launched && !finished;
    }

    /** The worker's thread, inside run(): n more commits have returned. */
    method Commit(n: nat)
      requires Alive(View())
      modifies this
      ensures View() == Committed(old(View()), n)
    {
      counted := counted + n;
    }

    /** The end of the worker's thread: run() returned its count, or raised. */
    method Finish(returned: bool)
      requires Alive(View())
      modifies this
      ensures View() == Ended(old(View()), returned)
    {
      if returned {
        delivered := counted;
      }
      failed := !returned;
      finished := true;
    }
  }

  function Views(workers: seq<Worker>): seq<WorkerState>
    reads workers
  {
    seq(|workers|, i requires 0 <= i < |workers| reads workers => workers[i].View())
  }

  class CDCApp {
    const workers: seq<Worker>
    var isOpen: bool
    var stopping: bool
    var log: seq<Act>

    ghost predicate Valid() { forall i, j :: 0 <= i < j < |workers| ==> workers[i] != workers[j] }

    constructor (workers: seq<Worker>)
      ensures this.workers == workers && !isOpen && !stopping && log == []
    {
      this.workers := workers;
      isOpen, stopping, log := false, false, [];
    }

    function View(): State
      reads this, workers
    {
      State(Views(workers), isOpen, stopping, log)
    }

    method StopWorker(i: nat)
      requires Valid() && i < |workers|
      modifies this`log, workers
      ensures View() == StoppedAt(old(View()), i)
    {
      ghost var was := Views(workers);
      workers[i].RequestStop();
      log := log + [Stop(i)];
      assert Views(workers) == was[i := workers[i].View()];
    }

    method StopWorkers()
      requires Valid()
      modifies this`log, workers
      ensures View() == StopFrom(old(View()), 0)
    {
      for i := 0 to |workers|
        invariant StopFrom(old(View()), 0) == StopFrom(View(), i)
      {
        StopWorker(i);
      }
    }

    method EnterWorker(i: nat)
      requires Valid() && i < |workers|
      modifies this`log, workers
      ensures View() == EnteredAt(old(View()), i)
    {
      ghost var was := Views(workers);
      var entered := workers[i].Enter();
      if entered {
        log := log + [Act.Enter(i)];
      }
      assert Views(workers) == was[i := workers[i].View()] && was[i := was[i]] == was;
    }

    method Enter(failAt: Option<nat>) returns (ok: bool)
      requires Valid()
      modifies this, workers
      ensures (View(), ok) == EnterApp(old(View()), failAt)
    {
      for i := 0 to |workers|
        invariant isOpen == old(isOpen)
        invariant EnterFrom(old(View()), 0, failAt) == EnterFrom(View(), i, failAt)
      {
        if failAt == Some(i) && !workers[i].entered {
          return false;
        }
        EnterWorker(i);
      }
      isOpen := true;
      return true;
    }

    method StartWorker(i: nat)
      requires Valid() && i < |workers|
      modifies this`log, workers
      ensures View() == LaunchedAt(old(View()), i)
    {
      ghost var was := Views(workers);
      var started := workers[i].Start();
      if started {
        log := log + [Launch(i)];
      }
      assert Views(workers) == was[i := workers[i].View()] && was[i := was[i]] == was;
    }

    /** Start every worker that was never started; waiting for them changes nothing. */
    method Run() returns (ok: bool)
      requires Valid()
      modifies this`log, workers
      ensures (View(), ok) == RunApp(old(View()))
    {
      if !isOpen || |workers| == 0 {
        return false;
      }
      for i := 0 to |workers|
        invariant LaunchFrom(old(View()), 0) == LaunchFrom(View(), i)
      {
        StartWorker(i);
      }
      return true;
    }

    method HandleSignal()
      requires Valid()
      modifies this, workers
      ensures View() == Signalled(old(View()))
    {
      stopping := true;
      StopWorkers();
    }

    /** What the workers' own threads do until time t. */
    method Elapse(t: int, env: Shutdown)
      requires Valid()
      modifies workers
      ensures View() == Elapsed(old(View()), t, env)
    {
      ghost var was := Views(workers);
      for i := 0 to |workers|
        invariant forall k :: 0 <= k < |workers| ==>
                    workers[k].View() == if k < i then Aged(was[k], k, t, env) else was[k]
      {
        var alive := workers[i].IsAlive();
        var end := env.endsAt(i);
        if alive && end.Some? && end.value <= t {
          workers[i].Commit(env.more(i));
          workers[i].Finish(env.returned(i));
        }
      }
    }

    /** Join one worker for at most the time left until the deadline, if its thread is running. */
    method JoinWorker(i: nat, now: int, deadline: int, env: Shutdown) returns (clock: int)
      requires Valid() && i < |workers|
      modifies this`log, workers
      ensures (View(), clock) == JoinedAt(old(View()), i, now, deadline, env)
    {
      clock := now + env.joining(i);
      Elapse(clock, env);
      var alive := workers[i].IsAlive();
      if alive {
        log := log + [Join(i)];
        clock := Waited(i, clock, deadline, env);
        Elapse(clock, env);
      }
    }

    /** Join every worker against one deadline. */
    method JoinWorkers(now: int, deadline: int, env: Shutdown) returns (clock: int)
      requires Valid()
      modifies this`log, workers
      ensures (View(), clock) == JoinFrom(old(View()), 0, now, deadline, env)
    {
      clock := now;
      for i := 0 to |workers|
        invariant JoinFrom(old(View()), 0, now, deadline, env) == JoinFrom(View(), i, clock, deadline, env)
      {
        clock := JoinWorker(i, clock, deadline, env);
      }
    }

    method LeaveWorker(i: nat)
      requires Valid() && i < |workers|
      modifies this`log, workers
      ensures View() == LeftAt(old(View()), i)
    {
      ghost var was := Views(workers);
      var running := workers[i].IsAlive();
      var left := workers[i].Leave();
      if left {
        log := log + [Act.Leave(i, running)];
      }
      assert Views(workers) == was[i := workers[i].View()] && was[i := was[i]] == was;
    }

    method LeaveWorkers(now: int, env: Shutdown) returns (clock: int)
      requires Valid()
      modifies this`log, workers
      ensures (View(), clock) == LeaveFrom(old(View()), 0, now, env)
    {
      clock := now;
      for i := 0 to |workers|
        invariant LeaveFrom(old(View()), 0, now, env) == LeaveFrom(View(), i, clock, env)
      {
        clock := clock + env.leaving(i);
        Elapse(clock, env);
        LeaveWorker(i);
      }
    }

    /** Close the app and ask every worker to stop. */
    method StopAll(now: int, env: Shutdown)
      requires Valid()
      modifies this, workers
      ensures View() == Stopped(old(View()), now, env)
    {
      isOpen, stopping := false, true;
      assert View() == old(View()).(isOpen := false, stopping := true);
      StopWorkers();
      Elapse(now, env);
    }

    /** Ask every worker to stop, join them all against one deadline, then leave every entered consumer. */
    method Exit(timeout: nat, now: int, env: Shutdown) returns (clock: int)
      requires Valid()
      modifies this, workers
      ensures (View(), clock) == ExitApp(old(View()), timeout, now, env)
    {
      StopAll(now, env);
      clock := JoinWorkers(now, now + timeout, env);
      clock := LeaveWorkers(clock, env);
      stopping := false;
    }
  }

  /**
   A consumer that fails to open leaves the app closed and the consumers before it entered: __exit__ never
   runs, so nothing leaves them.
   */
  lemma {:induction false} FailedEnterLeavesEntered(a: State, i: nat, k: nat)
    requires i <= k < |a.workers| && forall j :: i <= j < |a.workers| ==> !a.workers[j].entered
    ensures var (a', ok) := EnterFrom(a, i, Some(k));
            && !ok && a'.isOpen == a.isOpen && |a'.workers| == |a.workers|
            && forall j :: 0 <= j < |a.workers| ==>
                 a'.workers[j] == if i <= j < k then a.workers[j].(entered := true) else a.workers[j]
    decreases k - i
  {
    if i < k {
      FailedEnterLeavesEntered(EnteredAt(a, i), i + 1, k);
    }
  }

  /**
   Entering the app fails exactly when the consumer that raises was not entered already.  When it returns, the
   app is open and every consumer is entered; exactly those not entered before were entered now, and nothing
   else about the workers changed.
   */
  lemma EnterOpensExactlyWhen(a: State, failAt: Option<nat>)
    ensures var (a', ok) := EnterApp(a, failAt);
            && (ok <==> !(failAt.Some? && failAt.value < |a.workers| && !a.workers[failAt.value].entered))
            && a'.isOpen == (ok || a.isOpen) && a'.stopping == a.stopping
            && |a'.workers| == |a.workers|
            && (ok ==> forall k :: 0 <= k < |a.workers| ==> a'.workers[k] == a.workers[k].(entered := true))
  {
    EntersFrom(a, 0, failAt);
  }

  lemma {:induction false} EntersFrom(a: State, i: nat, failAt: Option<nat>)
    requires i <= |a.workers|
    ensures var (a', ok) := EnterFrom(a, i, failAt);
            && (ok <==> !(failAt.Some? && i <= failAt.value < |a.workers| && !a.workers[failAt.value].entered))
            && a'.isOpen == a.isOpen && a'.stopping == a.stopping
            && |a'.workers| == |a.workers|
            && (ok ==> forall k :: 0 <= k < |a.workers| ==>
                         a'.workers[k] == if k < i then a.workers[k] else a.workers[k].(entered := true))
    decreases |a.workers| - i
  {
    if i < |a.workers| && !(failAt == Some(i) && !a.workers[i].entered) {
      EntersFrom(EnteredAt(a, i), i + 1, failAt);
    }
  }

  /** run() is refused, and changes nothing, exactly when the app is closed or has no consumers. */
  lemma RunRefusedExactlyWhen(a: State)
    ensures var (a', ok) := RunApp(a);
            && (!ok <==> !a.isOpen || |a.workers| == 0)
            && (!ok ==> a' == a)
            && (ok ==> |a'.workers| == |a.workers| && forall k :: 0 <= k < |a.workers| ==> a'.workers[k].launched)
  {
    RunStartsTheRest(a, 0);
  }

  /** A signal reaches every worker, whatever its state, and tells run() to give up waiting. */
  lemma SignalReachesEveryWorker(a: State)
    ensures var a' := Signalled(a);
            && a'.stopping && |a'.workers| == |a.workers|
            && forall k :: 0 <= k < |a.workers| ==> a'.workers[k] == a.workers[k].(stop := true)
  {
    var stops := StopFromShape(a.(stopping := true), 0);
    StopFromKeepsFlags(a.(stopping := true), 0);
  }

  /**
   run() starts exactly the workers never started.  Starting clears a stop request that came before it, so a
   signal ahead of run() reaches those workers only through the shutdown.
   */
  lemma {:induction false} RunStartsTheRest(a: State, i: nat)
    requires i <= |a.workers|
    ensures |LaunchFrom(a, i).workers| == |a.workers|
    ensures forall k :: 0 <= k < |a.workers| ==>
              LaunchFrom(a, i).workers[k]
              == if k < i || a.workers[k].launched then a.workers[k]
                 else a.workers[k].(launched := true, stop := false)
    decreases |a.workers| - i
  {
    if i < |a.workers| {
      RunStartsTheRest(LaunchedAt(a, i), i + 1);
    }
  }

  // ------------------------------------------------------------------ bounded shutdown

  function Overheads(times: nat -> nat, i: nat, n: nat): nat
    requires i <= n
    decreases n - i
  {
    if i == n then 0 else times(i) + Overheads(times, i + 1, n)
  }

  lemma {:induction false} JoinsAreBounded(a: State, i: nat, now: int, deadline: int, env: Shutdown)
    requires i <= |a.workers|
    ensures var (a', clock) := JoinFrom(a, i, now, deadline, env);
            && |a'.workers| == |a.workers|
            && now <= clock <= Max(now, deadline) + Overheads(env.joining, i, |a.workers|)
    decreases |a.workers| - i
  {
    if i < |a.workers| {
      var (a', now') := JoinedAt(a, i, now, deadline, env);
      JoinsAreBounded(a', i + 1, now', deadline, env);
    }
  }

  lemma {:induction false} LeavingTakes(a: State, i: nat, now: int, env: Shutdown)
    requires i <= |a.workers|
    ensures LeaveFrom(a, i, now, env).1 == now + Overheads(env.leaving, i, |a.workers|)
    decreases |a.workers| - i
  {
    if i < |a.workers| {
      var now' := now + env.leaving(i);
      LeavingTakes(LeftAt(Elapsed(a, now', env), i), i + 1, now', env);
    }
  }

  /**
   However many workers there are and however their threads behave, all the joins together take at most the
   shutdown timeout, beside the time that the statements around them take.
   */
  lemma ShutdownIsBounded(a: State, timeout: nat, now: int, env: Shutdown)
    ensures ExitApp(a, timeout, now, env).1
            <= now + timeout + Overheads(env.joining, 0, |a.workers|) + Overheads(env.leaving, 0, |a.workers|)
  {
    var a1 := Stopped(a, now, env);
    JoinsAreBounded(a1, 0, now, now + timeout, env);
    var (a2, clock) := JoinFrom(a1, 0, now, now + timeout, env);
    LeavingTakes(a2, 0, clock, env);
  }

  predicate OnlyStops(log: seq<Act>) { forall i :: 0 <= i < |log| ==> log[i].Stop? }

  predicate OnlyJoins(log: seq<Act>) { forall i :: 0 <= i < |log| ==> log[i].Join? }

  predicate OnlyLeaves(log: seq<Act>) { forall i :: 0 <= i < |log| ==> log[i].Leave? }

  lemma {:induction false} StopFromShape(a: State, i: nat)
    returns (stops: seq<Act>)
    requires i <= |a.workers|
    ensures StopFrom(a, i).log == a.log + stops && OnlyStops(stops) && |stops| == |a.workers| - i
    ensures forall k :: 0 <= k < |stops| ==> stops[k] == Stop(i + k)
    ensures |StopFrom(a, i).workers| == |a.workers|
    ensures forall k :: 0 <= k < |a.workers| ==>
              StopFrom(a, i).workers[k] == if k < i then a.workers[k] else a.workers[k].(stop := true)
    decreases |a.workers| - i
  {
    if i == |a.workers| {
      stops := [];
    } else {
      var rest := StopFromShape(StoppedAt(a, i), i + 1);
      stops := [Stop(i)] + rest;
      assert a.log + [Stop(i)] + rest == a.log + stops;
    }
  }

  lemma ElapsedTwice(a: State, t: int, u: int, env: Shutdown)
    requires t <= u
    ensures Elapsed(Elapsed(a, t, env), u, env) == Elapsed(a, u, env)
  {
  }

  /** What joining does: threads end as time passes, and only joins are logged. */
  lemma {:induction false} JoinFromShape(a: State, i: nat, now: int, deadline: int, env: Shutdown)
    returns (joins: seq<Act>)
    requires i <= |a.workers| && Elapsed(a, now, env) == a
    ensures var (b, clock) := JoinFrom(a, i, now, deadline, env);
            now <= clock && b == Elapsed(a.(log := a.log + joins), clock, env) && OnlyJoins(joins)
    decreases |a.workers| - i
  {
    if i == |a.workers| {
      joins := [];
      assert a.log + joins == a.log;
    } else {
      var (a', now') := JoinedAt(a, i, now, deadline, env);
      JoinedOnce(a, i, now, deadline, env);
      var rest := JoinFromShape(a', i + 1, now', deadline, env);
      joins := a'.log[|a.log|..] + rest;
      var log := a'.log + rest;
      assert a.log + joins == log;
      assert a'.(log := log) == Elapsed(a.(log := log), now', env);
      ElapsedTwice(a.(log := log), now', JoinFrom(a', i + 1, now', deadline, env).1, env);
    }
  }

  lemma JoinedOnce(a: State, i: nat, now: int, deadline: int, env: Shutdown)
    requires i < |a.workers|
    ensures var (b, clock) := JoinedAt(a, i, now, deadline, env);
            && now <= clock && a.log <= b.log && OnlyJoins(b.log[|a.log|..])
            && b == Elapsed(a.(log := b.log), clock, env)
            && Elapsed(b, clock, env) == b
  {
    var start := now + env.joining(i);
    ElapsedTwice(a, start, start, env);
    if Alive(Elapsed(a, start, env).workers[i]) {
      var end := Waited(i, start, deadline, env);
      var log := a.log + [Join(i)];
      ElapsedTwice(a.(log := log), start, end, env);
      ElapsedTwice(a.(log := log), end, end, env);
    }
  }

  /** One pass of the join loop waits for its own worker, and time passes for the others. */
  lemma JoinedWaits(a: State, i: nat, now: int, deadline: int, env: Shutdown, k: nat)
    requires i < |a.workers| && k < |a.workers| && Alive(a.workers[k])
    ensures var (a', clock) := JoinedAt(a, i, now, deadline, env);
            && |a'.workers| == |a.workers|
            && (!Alive(a'.workers[k]) ==> EndsBy(env, k, clock))
            && (i == k ==> EndsBy(env, k, clock) || deadline <= clock)
            && (i == k && EndsBy(env, k, deadline) ==> EndsBy(env, k, clock))
  {
  }

  /** The joins wait for every live thread, until it ends or until the deadline. */
  lemma {:induction false} JoinsWait(a: State, i: nat, now: int, deadline: int, env: Shutdown, k: nat)
    requires i <= k < |a.workers| && Alive(a.workers[k])
    ensures var clock := JoinFrom(a, i, now, deadline, env).1; EndsBy(env, k, clock) || deadline <= clock
    ensures EndsBy(env, k, deadline) ==> EndsBy(env, k, JoinFrom(a, i, now, deadline, env).1)
    decreases |a.workers| - i
  {
    var (a', now') := JoinedAt(a, i, now, deadline, env);
    JoinedWaits(a, i, now, deadline, env, k);
    JoinsAreBounded(a', i + 1, now', deadline, env);
    if i < k && Alive(a'.workers[k]) {
      JoinsWait(a', i + 1, now', deadline, env, k);
    }
  }

  lemma AgedTwice(w: WorkerState, k: nat, t: int, u: int, env: Shutdown, entered: bool)
    requires t <= u
    ensures Aged(Aged(w, k, t, env).(entered := entered), k, u, env) == Aged(w, k, u, env).(entered := entered)
  {
  }

  /** One pass of the leave loop, as worker k sees it. */
  lemma LeaveStep(a: State, i: nat, t: int, env: Shutdown, k: nat)
    requires i < |a.workers| && k < |a.workers|
    ensures var a' := LeftAt(Elapsed(a, t, env), i);
            && |a'.workers| == |a.workers|
            && a'.workers[k] == Aged(a.workers[k], k, t, env).(entered := k != i && a.workers[k].entered)
            && a'.log == a.log + if a.workers[i].entered then [Leave(i, Alive(Aged(a.workers[i], i, t, env)))] else []
  {
  }

  /** What leaving logs: the entered consumers in order, each with whether its thread was running then. */
  function LeaveLog(a: State, i: nat, now: int, env: Shutdown): (leaves: seq<Act>)
    requires i <= |a.workers|
    ensures OnlyLeaves(leaves)
    decreases |a.workers| - i
  {
    if i == |a.workers| then []
    else
      var t := now + env.leaving(i);
      (if a.workers[i].entered then [Leave(i, Alive(Aged(a.workers[i], i, t, env)))] else [])
      + LeaveLog(a, i + 1, t, env)
  }

  /** It does not matter for the log that threads of later workers have ended meanwhile. */
  lemma {:induction false} LeaveLogOfAged(a: State, b: State, i: nat, t: int, now: int, env: Shutdown)
    requires i <= |a.workers| == |b.workers| && t <= now
    requires forall k :: i <= k < |a.workers| ==> b.workers[k] == Aged(a.workers[k], k, t, env)
    ensures LeaveLog(a, i, now, env) == LeaveLog(b, i, now, env)
    decreases |a.workers| - i
  {
    if i < |a.workers| {
      var u := now + env.leaving(i);
      AgedTwice(a.workers[i], i, t, u, env, a.workers[i].entered);
      LeaveLogOfAged(a, b, i + 1, t, u, env);
    }
  }

  /** One pass of the leave loop, as its log sees it. */
  lemma LeaveLogStep(a: State, i: nat, now: int, env: Shutdown)
    requires i < |a.workers|
    ensures var t := now + env.leaving(i);
            var a' := LeftAt(Elapsed(a, t, env), i);
            && |a'.workers| == |a.workers| && a'.isOpen == a.isOpen && a'.stopping == a.stopping
            && a'.log + LeaveLog(a', i + 1, t, env) == a.log + LeaveLog(a, i, now, env)
  {
    var t := now + env.leaving(i);
    var a' := LeftAt(Elapsed(a, t, env), i);
    var now' := if a.workers[i].entered then [Leave(i, Alive(Aged(a.workers[i], i, t, env)))] else [];
    var rest := LeaveLog(a, i + 1, t, env);
    LeaveStep(a, i, t, env, i);
    LeaveLogOfAged(a, a', i + 1, t, t, env);
    assert a.log + now' + rest == a.log + (now' + rest);
  }

  lemma {:induction false} LeaveFromShape(a: State, i: nat, now: int, env: Shutdown)
    requires i <= |a.workers|
    ensures var b := LeaveFrom(a, i, now, env).0;
            && b.log == a.log + LeaveLog(a, i, now, env)
            && b.isOpen == a.isOpen && b.stopping == a.stopping && |b.workers| == |a.workers|
    decreases |a.workers| - i
  {
    if i < |a.workers| {
      var t := now + env.leaving(i);
      LeaveLogStep(a, i, now, env);
      LeaveFromShape(LeftAt(Elapsed(a, t, env), i), i + 1, t, env);
    }
  }

  /** Worker k's consumer is left exactly if it was entered, with its thread running or not. */
  lemma {:induction false} LeavesWhom(a: State, i: nat, now: int, env: Shutdown, k: nat, running: bool)
    requires i <= |a.workers|
    ensures Leave(k, running) in LeaveLog(a, i, now, env) <==>
              && i <= k < |a.workers| && a.workers[k].entered
              && running == Alive(Aged(a.workers[k], k, now + Overheads(env.leaving, i, k + 1), env))
    decreases |a.workers| - i
  {
    if i < |a.workers| {
      LeavesWhom(a, i + 1, now + env.leaving(i), env, k, running);
    }
  }

  /** What leaving does to worker k: its consumer is left, and its thread ends when it ends. */
  lemma {:induction false} LeaveFromWorker(a: State, i: nat, now: int, env: Shutdown, k: nat)
    requires i < |a.workers| && k < |a.workers|
    ensures var (b, clock) := LeaveFrom(a, i, now, env);
            && |b.workers| == |a.workers|
            && b.workers[k] == Aged(a.workers[k], k, clock, env).(entered := k < i && a.workers[k].entered)
    decreases |a.workers| - i
  {
    var t, w := now + env.leaving(i), a.workers[k];
    var a' := LeftAt(Elapsed(a, t, env), i);
    LeaveStep(a, i, t, env, k);
    if i + 1 < |a.workers| {
      var clock := LeaveFrom(a', i + 1, t, env).1;
      LeavingTakes(a', i + 1, t, env);
      LeaveFromWorker(a', i + 1, t, env, k);
      AgedTwice(w, k, t, clock, env, k != i && w.entered);
    }
  }

  lemma {:induction false} StopFromKeepsFlags(a: State, i: nat)
    requires i <= |a.workers|
    ensures StopFrom(a, i).isOpen == a.isOpen && StopFrom(a, i).stopping == a.stopping
    decreases |a.workers| - i
  {
    if i < |a.workers| { StopFromKeepsFlags(StoppedAt(a, i), i + 1); }
  }


  /** When worker k's consumer is left. */
  function LeaveTime(a: State, timeout: nat, now: int, env: Shutdown, k: nat): int {
    JoinFrom(Stopped(a, now, env), 0, now, now + timeout, env).1 + Overheads(env.leaving, 0, k + 1)
  }

  /** The stops of a shutdown. */
  lemma StopsAll(a: State, now: int, env: Shutdown)
    returns (stops: seq<Act>)
    ensures var a' := Stopped(a, now, env);
            && Elapsed(a', now, env) == a' && a'.log == a.log + stops
            && |stops| == |a.workers| && (forall k: nat :: k < |a.workers| ==> stops[k] == Stop(k))
            && |a'.workers| == |a.workers| && !a'.isOpen
            && (forall k: nat :: k < |a.workers| ==>
                  a'.workers[k] == Aged(a.workers[k].(stop := true), k, now, env))
  {
    var a0 := a.(isOpen := false, stopping := true);
    stops := StopFromShape(a0, 0);
    StopFromKeepsFlags(a0, 0);
    ElapsedTwice(StopFrom(a0, 0), now, now, env);
  }

  /** The stops, and then the joins, of a shutdown. */
  lemma StopsAndJoins(a: State, timeout: nat, now: int, env: Shutdown)
    returns (stops: seq<Act>, joins: seq<Act>)
    ensures var (a', clock) := JoinFrom(Stopped(a, now, env), 0, now, now + timeout, env);
            && now <= clock && a'.log == a.log + stops + joins && OnlyJoins(joins)
            && |stops| == |a.workers| && (forall k: nat :: k < |a.workers| ==> stops[k] == Stop(k))
            && |a'.workers| == |a.workers| && !a'.isOpen
            && (forall k: nat :: k < |a.workers| ==>
                  a'.workers[k] == Aged(a.workers[k], k, clock, env).(stop := true))
  {
    stops := StopsAll(a, now, env);
    joins := JoinFromShape(Stopped(a, now, env), 0, now, now + timeout, env);
    var (a', clock) := JoinFrom(Stopped(a, now, env), 0, now, now + timeout, env);
    forall k: nat | k < |a.workers|
      ensures a'.workers[k] == Aged(a.workers[k], k, clock, env).(stop := true)
    {
      AgedTwice(a.workers[k].(stop := true), k, now, clock, env, a.workers[k].entered);
    }
  }

  /** Worker k after the shutdown. */
  lemma ShutdownWorker(a: State, timeout: nat, now: int, env: Shutdown, k: nat)
    requires k < |a.workers|
    ensures var (a', end) := ExitApp(a, timeout, now, env);
            && |a'.workers| == |a.workers|
            && a'.workers[k] == Aged(a.workers[k], k, end, env).(stop := true, entered := false)
  {
    var stops, joins := StopsAndJoins(a, timeout, now, env);
    var (a2, clock) := JoinFrom(Stopped(a, now, env), 0, now, now + timeout, env);
    LeaveFromWorker(a2, 0, clock, env, k);
    LeavingTakes(a2, 0, clock, env);
    AgedTwice(a.workers[k], k, clock, LeaveFrom(a2, 0, clock, env).1, env, false);
  }

  /** What the leaves of the shutdown log for worker k. */
  lemma ShutdownLeaves(a: State, timeout: nat, now: int, env: Shutdown, k: nat, running: bool)
    ensures var (a2, clock) := JoinFrom(Stopped(a, now, env), 0, now, now + timeout, env);
            Leave(k, running) in LeaveLog(a2, 0, clock, env) <==>
              && k < |a.workers| && a.workers[k].entered
              && running == Alive(Aged(a.workers[k], k, LeaveTime(a, timeout, now, env, k), env))
  {
    var stops, joins := StopsAndJoins(a, timeout, now, env);
    var (a2, clock) := JoinFrom(Stopped(a, now, env), 0, now, now + timeout, env);
    LeavesWhom(a2, 0, clock, env, k, running);
    if k < |a.workers| {
      AgedTwice(a.workers[k], k, clock, LeaveTime(a, timeout, now, env, k), env, a.workers[k].entered);
    }
  }

  /**
   Shutdown in order: every worker is asked to stop before the first join, and after the joins exactly the
   entered consumers are left; none stays entered, every stop request is in place, and every thread that
   ended by then has left its result.
   */
  lemma ShutdownInOrder(a: State, timeout: nat, now: int, env: Shutdown)
    returns (stops: seq<Act>, joins: seq<Act>, leaves: seq<Act>)
    ensures var (a', end) := ExitApp(a, timeout, now, env);
            && a'.log == a.log + stops + joins + leaves
            && |stops| == |a.workers| && (forall k: nat :: k < |a.workers| ==> stops[k] == Stop(k))
            && OnlyJoins(joins) && OnlyLeaves(leaves)
            && |a'.workers| == |a.workers|
            && (forall k: nat :: k < |a.workers| ==>
                  a'.workers[k] == Aged(a.workers[k], k, end, env).(stop := true, entered := false))
            && !a'.isOpen && !a'.stopping
    ensures forall k: nat, running: bool :: Leave(k, running) in leaves <==>
              && k < |a.workers| && a.workers[k].entered
              && running == Alive(Aged(a.workers[k], k, LeaveTime(a, timeout, now, env, k), env))
  {
    stops, joins := StopsAndJoins(a, timeout, now, env);
    var (a2, clock) := JoinFrom(Stopped(a, now, env), 0, now, now + timeout, env);
    leaves := LeaveLog(a2, 0, clock, env);
    LeaveFromShape(a2, 0, clock, env);
    forall k: nat | k < |a.workers|
      ensures var (a', end) := ExitApp(a, timeout, now, env);
              && |a'.workers| == |a.workers|
              && a'.workers[k] == Aged(a.workers[k], k, end, env).(stop := true, entered := false)
    {
      ShutdownWorker(a, timeout, now, env, k);
    }
    forall k: nat, running: bool
      ensures Leave(k, running) in leaves <==>
                && k < |a.workers| && a.workers[k].entered
                && running == Alive(Aged(a.workers[k], k, LeaveTime(a, timeout, now, env, k), env))
    {
      ShutdownLeaves(a, timeout, now, env, k, running);
    }
  }

  /** A consumer is left within the shutdown, and not before its thread had until the deadline to end. */
  lemma LeaveTimes(a: State, timeout: nat, now: int, env: Shutdown, k: nat)
    requires k < |a.workers|
    ensures LeaveTime(a, timeout, now, env, k) <= ExitApp(a, timeout, now, env).1
    ensures Alive(a.workers[k]) && EndsBy(env, k, now + timeout) ==>
              EndsBy(env, k, LeaveTime(a, timeout, now, env, k))
  {
    var stops, joins := StopsAndJoins(a, timeout, now, env);
    var stops' := StopsAll(a, now, env);
    var a1 := Stopped(a, now, env);
    var (a2, clock) := JoinFrom(a1, 0, now, now + timeout, env);
    LeavingTakes(a2, 0, clock, env);
    OverheadsGrow(env.leaving, 0, k + 1, |a.workers|);
    if Alive(a1.workers[k]) && EndsBy(env, k, now + timeout) {
      JoinsWait(a1, 0, now, now + timeout, env, k);
    }
  }

  /**
   A consumer is left, and so closed, under a thread that is still running exactly when it was entered and
   the thread ends after that moment or never.  That never happens to a thread that ends within the shutdown
   timeout, and always to one that outlives the shutdown.
   */
  lemma LeftWhileRunning(a: State, timeout: nat, now: int, env: Shutdown, k: nat)
    returns (stops: seq<Act>, joins: seq<Act>, leaves: seq<Act>)
    requires k < |a.workers|
    ensures var (a', end) := ExitApp(a, timeout, now, env);
            && a'.log == a.log + stops + joins + leaves && OnlyLeaves(leaves)
            && var left := Leave(k, true) in leaves;
               && (left <==> a.workers[k].entered && Alive(a.workers[k])
                             && !EndsBy(env, k, LeaveTime(a, timeout, now, env, k)))
               && (EndsBy(env, k, now + timeout) ==> !left)
               && (a.workers[k].entered && Alive(a.workers[k]) && !EndsBy(env, k, end) ==> left)
  {
    stops, joins, leaves := ShutdownInOrder(a, timeout, now, env);
    LeaveTimes(a, timeout, now, env, k);
  }

  /** The shutdown does not give up early: a thread that does not end keeps it waiting until the deadline. */
  lemma ShutdownWaits(a: State, timeout: nat, now: int, env: Shutdown, k: nat)
    requires k < |a.workers| && Alive(a.workers[k])
    ensures var end := ExitApp(a, timeout, now, env).1; EndsBy(env, k, end) || now + timeout <= end
  {
    var stops := StopsAll(a, now, env);
    var a1 := Stopped(a, now, env);
    JoinsAreBounded(a1, 0, now, now + timeout, env);
    if Alive(a1.workers[k]) {
      JoinsWait(a1, 0, now, now + timeout, env, k);
    }
    var (a2, clock) := JoinFrom(a1, 0, now, now + timeout, env);
    LeavingTakes(a2, 0, clock, env);
  }

  lemma {:induction false} OverheadsGrow(times: nat -> nat, i: nat, m: nat, n: nat)
    requires i <= m <= n
    ensures Overheads(times, i, m) <= Overheads(times, i, n)
    decreases m - i
  {
    if i < m {
      OverheadsGrow(times, i + 1, m, n);
    }
  }

  // ------------------------------------------------------------------ over any sequence of operations

  datatype Op =
    | DoEnter(failAt: Option<nat>)
    | DoRun
    | DoSignal
    | DoCommit(i: nat)                          // a commit returned inside the worker's run()
    | DoThreadEnds(i: nat, returned: bool)      // the worker's run() returned its count, or raised
    | DoExit(timeout: nat, now: int, env: Shutdown)

  function Changed(a: State, i: nat, w: WorkerState): State
    requires i < |a.workers|
  {
    a.(workers := a.workers[i := w])
  }

  function Performed(a: State, op: Op): State {
    match op
    case DoEnter(failAt) => EnterApp(a, failAt).0
    case DoRun => RunApp(a).0
    case DoSignal => Signalled(a)
    case DoCommit(i) => if i < |a.workers| then Changed(a, i, Committed(a.workers[i], 1)) else a
    case DoThreadEnds(i, returned) =>
      if i < |a.workers| then Changed(a, i, Ended(a.workers[i], returned)) else a
    case DoExit(timeout, now, env) => ExitApp(a, timeout, now, env).0
  }

  function AllPerformed(a: State, ops: seq<Op>): State
    decreases |ops|
  {
    if ops == [] then a else AllPerformed(Performed(a, ops[0]), ops[1..])
  }

  /** What a worker reports is run()'s count once run() has returned it, and 0 otherwise. */
  predicate Accounted(w: WorkerState) {
    && (w.finished ==> w.launched)
    && (w.failed ==> w.finished)
    && (!w.launched ==> w.counted == 0)
    && w.delivered == if w.finished && !w.failed then w.counted else 0
  }

  /** How a worker may change: a thread that has ended leaves its worker's account alone for good. */
  predicate Later(w: WorkerState, w': WorkerState) {
    && (w.launched ==> w'.launched)
    && w.counted <= w'.counted
    && (w.launched && w.finished ==> w'.(entered := w.entered, stop := w.stop) == w)
    && (Accounted(w) ==> Accounted(w'))
  }

  function Launches(w: WorkerState): nat { if w.launched then 1 else 0 }

  /** How the app may change: every worker as above, and a logged launch for each worker newly started. */
  ghost predicate Evolves(a: State, b: State) {
    |a.workers| == |b.workers| && forall i: nat :: i < |a.workers| ==> WorkerEvolves(a, b, i)
  }

  predicate WorkerEvolves(a: State, b: State, i: nat)
    requires i < |a.workers| && i < |b.workers|
  {
    && Later(a.workers[i], b.workers[i])
    && Count(b.log, Launch(i)) + Launches(a.workers[i]) == Count(a.log, Launch(i)) + Launches(b.workers[i])
  }

  lemma LoggedEvolves(a: State, i: nat, w: WorkerState, act: Act)
    requires i < |a.workers| && Later(a.workers[i], w)
    requires if act == Launch(i) then !a.workers[i].launched && w.launched
             else !act.Launch? && a.workers[i].launched == w.launched
    ensures Evolves(a, Logged(a, i, w, act))
  {
    forall k: nat ensures Count(a.log + [act], Launch(k)) == Count(a.log, Launch(k)) + Count([act], Launch(k)) {
      CountConcat(a.log, [act], Launch(k));
    }
  }

  lemma ElapsedEvolves(a: State, t: int, env: Shutdown)
    ensures Evolves(a, Elapsed(a, t, env))
  {
  }

  lemma EvolvesTrans(a: State, b: State, c: State)
    requires Evolves(a, b) && Evolves(b, c)
    ensures Evolves(a, c)
  {
    forall i: nat | i < |a.workers| ensures WorkerEvolves(a, c, i) {
      assert WorkerEvolves(a, b, i) && WorkerEvolves(b, c, i);
    }
  }

  /** The app's own flags do not matter. */
  lemma FlagsEvolve(a: State, b: State)
    requires a.workers == b.workers && a.log == b.log
    ensures Evolves(a, b)
  {
    assert forall i: nat :: i < |a.workers| ==> WorkerEvolves(a, b, i);
  }

  lemma {:induction false} StopEvolves(a: State, i: nat)
    requires i <= |a.workers|
    ensures Evolves(a, StopFrom(a, i))
    decreases |a.workers| - i
  {
    if i < |a.workers| {
      LoggedEvolves(a, i, a.workers[i].(stop := true), Stop(i));
      StopEvolves(StoppedAt(a, i), i + 1);
      EvolvesTrans(a, StoppedAt(a, i), StopFrom(a, i));
    }
  }

  lemma {:induction false} LaunchEvolves(a: State, i: nat)
    requires i <= |a.workers|
    ensures Evolves(a, LaunchFrom(a, i))
    decreases |a.workers| - i
  {
    if i < |a.workers| {
      if !a.workers[i].launched {
        LoggedEvolves(a, i, Started(a.workers[i]), Launch(i));
      }
      LaunchEvolves(LaunchedAt(a, i), i + 1);
      EvolvesTrans(a, LaunchedAt(a, i), LaunchFrom(a, i));
    }
  }

  lemma {:induction false} EnterEvolves(a: State, i: nat, failAt: Option<nat>)
    requires i <= |a.workers|
    ensures Evolves(a, EnterFrom(a, i, failAt).0)
    decreases |a.workers| - i
  {
    if i < |a.workers| && !(failAt == Some(i) && !a.workers[i].entered) {
      LoggedEvolves(a, i, a.workers[i].(entered := true), Enter(i));
      EnterEvolves(EnteredAt(a, i), i + 1, failAt);
      EvolvesTrans(a, EnteredAt(a, i), EnterFrom(a, i, failAt).0);
    }
  }

  lemma LeftEvolves(a: State, i: nat)
    requires i < |a.workers|
    ensures Evolves(a, LeftAt(a, i))
  {
    if a.workers[i].entered {
      LoggedEvolves(a, i, a.workers[i].(entered := false), Leave(i, Alive(a.workers[i])));
    }
  }

  lemma {:induction false} LeaveEvolves(a: State, i: nat, now: int, env: Shutdown)
    requires i <= |a.workers|
    ensures Evolves(a, LeaveFrom(a, i, now, env).0)
    decreases |a.workers| - i
  {
    if i < |a.workers| {
      var now' := now + env.leaving(i);
      var b := Elapsed(a, now', env);
      ElapsedEvolves(a, now', env);
      LeftEvolves(b, i);
      LeaveEvolves(LeftAt(b, i), i + 1, now', env);
      EvolvesTrans(a, b, LeftAt(b, i));
      EvolvesTrans(a, LeftAt(b, i), LeaveFrom(a, i, now, env).0);
    }
  }

  lemma JoinsLaunchNothing(joins: seq<Act>, i: nat)
    requires OnlyJoins(joins)
    ensures Count(joins, Launch(i)) == 0
  {
    assert Launch(i) !in joins;
  }

  lemma JoinEvolves(a: State, now: int, deadline: int, env: Shutdown)
    requires Elapsed(a, now, env) == a
    ensures Evolves(a, JoinFrom(a, 0, now, deadline, env).0)
  {
    var joins := JoinFromShape(a, 0, now, deadline, env);
    forall i: nat ensures Count(a.log + joins, Launch(i)) == Count(a.log, Launch(i)) {
      CountConcat(a.log, joins, Launch(i));
      JoinsLaunchNothing(joins, i);
    }
  }

  lemma ExitEvolves(a: State, timeout: nat, now: int, env: Shutdown)
    ensures Evolves(a, ExitApp(a, timeout, now, env).0)
  {
    var a0, a2 := a.(isOpen := false, stopping := true), Stopped(a, now, env);
    StopFromKeepsSize(a0, 0);
    var a1 := StopFrom(a0, 0);
    StopEvolves(a0, 0);
    ElapsedEvolves(a1, now, env);
    ElapsedTwice(a1, now, now, env);
    JoinEvolves(a2, now, now + timeout, env);
    var (a3, clock) := JoinFrom(a2, 0, now, now + timeout, env);
    LeaveEvolves(a3, 0, clock, env);
    var a4 := LeaveFrom(a3, 0, clock, env).0;
    FlagsEvolve(a, a0);
    EvolvesTrans(a, a0, a1);
    EvolvesTrans(a, a1, a2);
    EvolvesTrans(a, a2, a3);
    EvolvesTrans(a, a3, a4);
    FlagsEvolve(a4, a4.(stopping := false));
    EvolvesTrans(a, a4, a4.(stopping := false));
  }

  lemma ThreadEvolves(a: State, i: nat, w: WorkerState)
    requires i < |a.workers| && Later(a.workers[i], w) && a.workers[i].launched == w.launched
    ensures Evolves(a, Changed(a, i, w))
  {
    assert forall k: nat :: k < |a.workers| ==> WorkerEvolves(a, Changed(a, i, w), k);
  }

  lemma OpEvolves(a: State, op: Op)
    ensures Evolves(a, Performed(a, op))
  {
    match op
    case DoEnter(failAt) =>
      var b := EnterFrom(a, 0, failAt).0;
      EnterEvolves(a, 0, failAt);
      FlagsEvolve(b, Performed(a, op));
      EvolvesTrans(a, b, Performed(a, op));
    case DoRun =>
      LaunchEvolves(a, 0);
      FlagsEvolve(a, a);
    case DoSignal =>
      FlagsEvolve(a, a.(stopping := true));
      StopEvolves(a.(stopping := true), 0);
      EvolvesTrans(a, a.(stopping := true), Performed(a, op));
    case DoCommit(i) => if i < |a.workers| { ThreadEvolves(a, i, Committed(a.workers[i], 1)); }
    case DoThreadEnds(i, returned) => if i < |a.workers| { ThreadEvolves(a, i, Ended(a.workers[i], returned)); }
    case DoExit(timeout, now, env) => ExitEvolves(a, timeout, now, env);
  }

  lemma {:induction false} AllEvolve(a: State, ops: seq<Op>)
    ensures Evolves(a, AllPerformed(a, ops))
    decreases |ops|
  {
    if ops != [] {
      OpEvolves(a, ops[0]);
      AllEvolve(Performed(a, ops[0]), ops[1..]);
      EvolvesTrans(a, Performed(a, ops[0]), AllPerformed(a, ops));
    }
  }

  /** An app with n workers, before anything was called. */
  function Registered(n: nat): State {
    State(seq(n, i requires 0 <= i < n => WorkerState(false, false, false, false, 0, 0, false)), false, false, [])
  }

  /** Over any sequence of operations, commits and thread endings, no worker's thread is started twice. */
  lemma NoWorkerStartsTwice(n: nat, ops: seq<Op>, i: nat)
    requires i < n
    ensures var a := AllPerformed(Registered(n), ops);
            |a.workers| == n && Count(a.log, Launch(i)) == if a.workers[i].launched then 1 else 0
  {
    AllEvolve(Registered(n), ops);
    assert WorkerEvolves(Registered(n), AllPerformed(Registered(n), ops), i);
  }

  /**
   The delivered count that a worker reports is the number of its commits that have returned exactly when
   run() has returned normally or no commit has returned yet; otherwise it reports 0.
   */
  lemma ReportIsCurrentExactlyWhen(n: nat, ops: seq<Op>, i: nat)
    requires i < n
    ensures var a := AllPerformed(Registered(n), ops);
            && |a.workers| == n
            && var w := a.workers[i];
               && (w.delivered == w.counted <==> (w.finished && !w.failed) || w.counted == 0)
               && (w.delivered != w.counted ==> w.delivered == 0)
  {
    AllEvolve(Registered(n), ops);
    assert WorkerEvolves(Registered(n), AllPerformed(Registered(n), ops), i);
  }

  /** The report of a thread that has ended never changes again. */
  lemma ReportIsFinal(a: State, ops: seq<Op>, i: nat)
    requires i < |a.workers| && a.workers[i].launched && a.workers[i].finished
    ensures var a' := AllPerformed(a, ops);
            && |a'.workers| == |a.workers|
            && a'.workers[i].delivered == a.workers[i].delivered && a'.workers[i].counted == a.workers[i].counted
            && a'.workers[i].finished && a'.workers[i].failed == a.workers[i].failed
  {
    AllEvolve(a, ops);
    assert WorkerEvolves(a, AllPerformed(a, ops), i);
  }

  /** One consumer, entered, run, and one commit that returned. */
  const ONE_COMMIT: seq<Op> := [DoEnter(None), DoRun, DoCommit(0)]

  /** A live worker that has committed a batch reports 0. */
  lemma LiveWorkerReportsNothing()
    ensures var w := AllPerformed(Registered(1), ONE_COMMIT).workers;
            |w| == 1 && Alive(w[0]) && w[0].counted == 1 && w[0].delivered == 0
  {
    var a1 := Performed(Registered(1), DoEnter(None));
    var a2 := Performed(a1, DoRun);
    assert a2.workers[0].launched;
    assert ONE_COMMIT[1..] == [DoRun, DoCommit(0)] && ONE_COMMIT[1..][1..] == [DoCommit(0)];
    assert AllPerformed(a2, [DoCommit(0)]) == Performed(a2, DoCommit(0));
  }

  /** And when its run() then raises, it reports 0 for good, whatever happens afterwards. */
  lemma RaisedWorkerNeverReports(ops: seq<Op>)
    ensures var a := Performed(AllPerformed(Registered(1), ONE_COMMIT), DoThreadEnds(0, false));
            var w := AllPerformed(a, ops).workers;
            |w| == 1 && w[0].failed && w[0].counted == 1 && w[0].delivered == 0
  {
    LiveWorkerReportsNothing();
    ReportIsFinal(Performed(AllPerformed(Registered(1), ONE_COMMIT), DoThreadEnds(0, false)), ops, 0);
  }

  /**
   The worker around run(): when its thread has made the commits of a whole run() and ended the way run()
   ended, the worker reports run()'s result if run() returned, and 0 if it raised.
   */
  lemma WorkerReportsRun(feed: seq<Event>, consumer: string, start: int, o: Loop.Options, now: int,
                         s: Runner.Session, polls: seq<Runner.RunPoll>, w: WorkerState)
    requires Ordered(feed) && Delivery.Invariant(feed, start, s.sys) && s.sys.phase == Delivery.Idle
    requires s.sys.sinks != [] && Alive(w) && Accounted(w) && w.counted == 0
    ensures var r := Runner.RunLoop(feed, consumer, o, Loop.Start(o, now), s, polls);
            && r.delivered == Runner.Commits(r.session.log) - Runner.Commits(s.log)
            && (r.exit.Some? ==>
                  var returned := r.exit.value.Finished?;
                  var w' := Ended(Committed(w, r.delivered), returned);
                  && w'.delivered == (if returned then r.delivered else 0)
                  && (w'.delivered == r.delivered <==> returned || r.delivered == 0))
  {
    Runner.RunCountsCommits(feed, consumer, start, o, now, s, polls);
  }
}
