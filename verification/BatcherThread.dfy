/**
 The life of the batching thread (src/sentry_batcher.c), as a step system.

 One `sentry__batcher_startup`, then any number of producers in `start_thread`, any number
 of crash flushes, the thread itself and one `sentry__batcher_shutdown` run concurrently.
 A join is a step that waits until the thread has exited.
 */
module BatcherThread {
  import opened Prelude

  /** `sentry_batcher_thread_state_t`, in numeric order. */
  datatype Life = STOPPED | IDLE | SPAWNING | STARTING | RUNNING | STOPPING

  /** A producer in `start_thread`. */
  datatype Creator = Outside | Spawn | Failed | Publish | CreatorJoin

  /** The batching thread in `batcher_thread_func`. */
  datatype Body = Unborn | WaitState | WaitCrash | CheckCrash | EnterRunning | Loop | Exited

  datatype Shutdown = NotYet | Load | LoadCrash | Cancel(seen: Life) | Join | Store | Over

  datatype Flusher = Calm | CancelIdle | LoadLife | StopStarting | StopRunning | Flushing

  datatype State = State(
    life: Life,
    started: bool,
    crash: bool,
    creators: seq<Creator>,
    body: Body,
    shutdown: Shutdown,
    flushers: seq<Flusher>,
    joins: nat,              // how often the thread was joined
    winner: Option<nat>)     // the producer that won the right to spawn

  datatype Move =
    | Startup
    | CreatorMove(p: nat, spawned: bool)
    | BodyMove
    | ShutdownMove
    | CrashMove(f: nat)

  /** `old_state <= SENTRY_BATCHER_THREAD_SPAWNING` */
  predicate NotJoinable(life: Life) {
    life.STOPPED? || life.IDLE? || life.SPAWNING?
  }

  function CreatorStep(s: State, p: nat, spawned: bool): State
    requires p < |s.creators|
  {
    match s.creators[p]
    case Outside =>
      if s.life == IDLE then
        s.(life := SPAWNING, winner := Some(p), creators := s.creators[p := Spawn])
      else s
    case Spawn =>
      if spawned then s.(body := WaitState, creators := s.creators[p := Publish])
      else s.(creators := s.creators[p := Failed])
    case Failed => s.(life := STOPPED, creators := s.creators[p := Outside])
    case Publish =>
      if s.life == SPAWNING then s.(life := STARTING, creators := s.creators[p := Outside])
      else s.(creators := s.creators[p := CreatorJoin])
    case CreatorJoin =>
      if s.body.Exited? then s.(joins := s.joins + 1, creators := s.creators[p := Outside]) else s
  }

  function BodyStep(s: State): State {
    match s.body
    case Unborn => s
    case WaitState => s.(body := if s.life == SPAWNING then WaitCrash else CheckCrash)
    case WaitCrash => s.(body := if s.crash then CheckCrash else WaitState)
    case CheckCrash => s.(body := if s.crash then Exited else EnterRunning)
    case EnterRunning =>
      if s.life == STARTING then s.(life := RUNNING, body := Loop) else s.(body := Exited)
    case Loop => if s.life == RUNNING then s else s.(body := Exited)
    case Exited => s
  }

  function ShutdownStep(s: State): State {
    match s.shutdown
    case NotYet => if s.started then s.(shutdown := Load) else s
    case Load => s.(shutdown := if s.life == SPAWNING then LoadCrash else Cancel(s.life))
    case LoadCrash => s.(shutdown := if s.crash then Cancel(SPAWNING) else Load)
    case Cancel(seen) =>
      if s.life == seen then s.(life := STOPPED, shutdown := if NotJoinable(seen) then Over else Join)
      else s.(shutdown := Load)
    case Join => if s.body.Exited? then s.(joins := s.joins + 1, shutdown := Store) else s
    case Store => s.(life := STOPPED, shutdown := Over)
    case Over => s
  }

  function CrashStep(s: State, f: nat): State
    requires f < |s.flushers|
  {
    match s.flushers[f]
    case Calm => s.(crash := true, flushers := s.flushers[f := CancelIdle])
    case CancelIdle => s.(life := if s.life == IDLE then STOPPED else s.life, flushers := s.flushers[f := LoadLife])
    case LoadLife => s.(flushers := s.flushers[f := if NotJoinable(s.life) then Flushing else StopStarting])
    case StopStarting =>
      s.(life := if s.life == STARTING then STOPPING else s.life, flushers := s.flushers[f := StopRunning])
    case StopRunning =>
      s.(life := if s.life == RUNNING then STOPPING else s.life, flushers := s.flushers[f := Flushing])
    case Flushing => s
  }

  predicate Enabled(s: State, move: Move) {
    match move
    case Startup => !s.started
    case CreatorMove(p, spawned) => p < |s.creators|
    case BodyMove => true
    case ShutdownMove => true
    case CrashMove(f) => f < |s.flushers|
  }

  function Step(s: State, move: Move): State
    requires Enabled(s, move)
  {
    match move
    case Startup => s.(life := IDLE, started := true)
    case CreatorMove(p, spawned) => CreatorStep(s, p, spawned)
    case BodyMove => BodyStep(s)
    case ShutdownMove => ShutdownStep(s)
    case CrashMove(f) => CrashStep(s, f)
  }

  ghost predicate Next(s: State, s': State) {
    exists move :: Enabled(s, move) && s' == Step(s, move)
  }

  ghost predicate IsRun(run: seq<State>, creators: nat, flushers: nat) {
    && |run| > 0
    && run[0] == State(STOPPED, false, false, seq(creators, i => Outside), Unborn, NotYet,
                       seq(flushers, i => Calm), 0, None)
    && forall i :: 0 <= i < |run| - 1 ==> Next(run[i], run[i + 1])
  }

  // ------------------------------------------------------------------- invariant

  /** Where the producer that won is. */
  function WinnerAt(s: State): Creator {
    if s.winner.Some? && s.winner.value < |s.creators| then s.creators[s.winner.value] else Outside
  }

  predicate Published(life: Life) {
    life.STARTING? || life.RUNNING? || life.STOPPING?
  }

  /** Who still has to join the thread: nobody, or exactly one of these. */
  function Duties(s: State): nat {
    (if WinnerAt(s).Publish? || WinnerAt(s).CreatorJoin? then 1 else 0)
    + (if Published(s.life) then 1 else 0)
    + (if s.shutdown.Join? then 1 else 0)
  }

  ghost predicate Inv(s: State) {
    // only the winner is inside start_thread, and there is one only once startup was called
    && (forall p: nat :: p < |s.creators| && s.winner != Some(p) ==> s.creators[p].Outside?)
    && (s.winner.Some? ==> s.winner.value < |s.creators| && s.started)
    && (s.life.IDLE? ==> s.winner.None?)
    && (!s.started ==> s.life.STOPPED? && s.shutdown.NotYet?)
    // the thread exists once the winner spawned it
    && (WinnerAt(s).Spawn? || WinnerAt(s).Failed? ==> s.body.Unborn?)
    && (s.winner.None? ==> s.body.Unborn?)
    && (s.life.SPAWNING? ==> WinnerAt(s).Spawn? || WinnerAt(s).Failed? || WinnerAt(s).Publish?)
    && (WinnerAt(s).Spawn? || WinnerAt(s).Failed? || WinnerAt(s).Publish? ==> s.life.SPAWNING? || s.life.STOPPED?)
    && (WinnerAt(s).CreatorJoin? ==> s.life.STOPPED?)
    // one duty to join until it is joined
    && Duties(s) + s.joins == (if s.body.Unborn? then 0 else 1)
    // shutdown comes once
    && (s.shutdown.Join? || s.shutdown.Store? || s.shutdown.Over? ==> s.life.STOPPED?)
    && (s.shutdown.Store? ==> s.joins == 1)
    && (s.joins == 1 ==> s.body.Exited?)
  }

  lemma CreatorKeepsInv(s: State, p: nat, spawned: bool)
    requires Inv(s) && p < |s.creators|
    ensures Inv(CreatorStep(s, p, spawned))
  {
  }

  lemma BodyKeepsInv(s: State)
    requires Inv(s)
    ensures Inv(BodyStep(s))
  {
  }

  lemma ShutdownKeepsInv(s: State)
    requires Inv(s)
    ensures Inv(ShutdownStep(s))
  {
  }

  lemma CrashKeepsInv(s: State, f: nat)
    requires Inv(s) && f < |s.flushers|
    ensures Inv(CrashStep(s, f))
  {
  }

  lemma StartupKeepsInv(s: State)
    requires Inv(s) && !s.started
    ensures Inv(s.(life := IDLE, started := true))
  {
  }

  lemma StepKeepsInv(s: State, move: Move)
    requires Inv(s) && Enabled(s, move)
    ensures Inv(Step(s, move))
  {
    hide Inv;
    match move
    case Startup => StartupKeepsInv(s);
    case CreatorMove(p, spawned) => CreatorKeepsInv(s, p, spawned);
    case BodyMove => BodyKeepsInv(s);
    case ShutdownMove => ShutdownKeepsInv(s);
    case CrashMove(f) => CrashKeepsInv(s, f);
  }

  lemma {:induction false} RunKeepsInv(run: seq<State>, creators: nat, flushers: nat, n: nat)
    requires IsRun(run, creators, flushers) && n < |run|
    ensures Inv(run[n])
  {
    if n > 0 {
      RunKeepsInv(run, creators, flushers, n - 1);
      hide Inv;
      assert Next(run[n - 1], run[n - 1 + 1]);
      var move :| Enabled(run[n - 1], move) && run[n] == Step(run[n - 1], move);
      StepKeepsInv(run[n - 1], move);
    }
  }

  // -------------------------------------------------------------------- theorems

  /** In every run, the thread is joined at most once and only after it exited; once
      shutdown is over and the producers have left, a thread that was spawned has been
      joined exactly once. */
  lemma JoinedExactlyOnce(run: seq<State>, creators: nat, flushers: nat, n: nat)
    requires IsRun(run, creators, flushers) && n < |run|
    ensures run[n].joins <= 1
    ensures run[n].joins == 1 ==> run[n].body.Exited?
    ensures var s := run[n];
      s.shutdown.Over? && (forall p :: 0 <= p < |s.creators| ==> s.creators[p].Outside?) ==>
        s.joins == if s.body.Unborn? then 0 else 1
  {
    hide IsRun;
    RunKeepsInv(run, creators, flushers, n);
  }

  /** RUNNING is entered only from STARTING, STOPPED is left only through startup, which
      comes once, and a thread that has exited stays so. */
  lemma LifeOnlyMovesForward(s: State, move: Move)
    requires Inv(s) && Enabled(s, move)
    ensures Step(s, move).life.RUNNING? && !s.life.RUNNING? ==> s.life.STARTING? && move.BodyMove?
    ensures s.life.STOPPED? && !Step(s, move).life.STOPPED? ==> move.Startup? && !s.started
    ensures s.started ==> Step(s, move).started
    ensures s.body.Exited? ==> Step(s, move).body.Exited?
  {
    if move.CreatorMove? && move.p < |s.creators| && s.winner != Some(move.p) {
      assert s.creators[move.p].Outside?;
    }
  }

  /** The thread is spawned at most once. */
  lemma SpawnedOnce(s: State, move: Move)
    requires Inv(s) && Enabled(s, move)
    ensures !s.body.Unborn? ==> !Step(s, move).body.Unborn?
    ensures move.CreatorMove? && s.creators[move.p].Spawn? ==> s.body.Unborn? && s.winner == Some(move.p)
  {
    if move.CreatorMove? && move.p < |s.creators| && s.winner != Some(move.p) {
      assert s.creators[move.p].Outside?;
    }
  }

  // --------------------------------------------------------------------------- crashes

  /** What a crash flush has brought about: the thread that is not running yet will find the crash, and
      once the flush is past its stops, the thread is out of its loop. */
  ghost predicate CrashOk(s: State) {
    && (s.body.CheckCrash? ==> s.crash || !s.life.SPAWNING?)
    && (s.body.EnterRunning? ==> !s.life.SPAWNING?)
    && (forall f :: 0 <= f < |s.flushers| ==>
          && (!s.flushers[f].Calm? ==> s.crash)
          && (s.flushers[f].StopRunning? || s.flushers[f].Flushing? ==> !(s.life.STARTING? && s.body.EnterRunning?))
          && (s.flushers[f].Flushing? ==> !s.life.RUNNING?))
  }

  lemma StepKeepsCrashOk(s: State, move: Move)
    requires Inv(s) && CrashOk(s) && Enabled(s, move)
    ensures CrashOk(Step(s, move))
  {
    if move.CreatorMove? && s.winner != Some(move.p) {
      assert s.creators[move.p].Outside?;
    }
  }

  lemma {:induction false} RunKeepsCrashOk(run: seq<State>, creators: nat, flushers: nat, n: nat)
    requires IsRun(run, creators, flushers) && n < |run|
    ensures CrashOk(run[n])
  {
    if n > 0 {
      hide Inv, Step, CrashOk;
      RunKeepsCrashOk(run, creators, flushers, n - 1);
      RunKeepsInv(run, creators, flushers, n - 1);
      assert Next(run[n - 1], run[n - 1 + 1]);
      var move :| Enabled(run[n - 1], move) && run[n] == Step(run[n - 1], move);
      StepKeepsCrashOk(run[n - 1], move);
    }
  }

  /** In every run, once a crash flush has come to its flush, the batching thread is not running its
      loop, and so it stays. */
  lemma CrashStopsTheThread(run: seq<State>, creators: nat, flushers: nat, n: nat, f: nat)
    requires IsRun(run, creators, flushers) && n < |run|
    requires f < |run[n].flushers| && run[n].flushers[f].Flushing?
    ensures run[n].crash && !run[n].life.RUNNING?
  {
    hide IsRun;
    RunKeepsCrashOk(run, creators, flushers, n);
  }

  // ------------------------------------------------------------------------------ alone

  function Then(s: State, move: Move): State {
    if Enabled(s, move) then Step(s, move) else s
  }

  /** After startup the first producer starts the thread, and the thread comes to its loop. */
  lemma StartsAlone(s: State, p: nat)
    requires Inv(s) && s.life.IDLE? && !s.crash && p < |s.creators|
    ensures var begin := CreatorMove(p, true);
            var begun := Then(Then(Then(s, begin), begin), begin);
            var s' := Then(Then(Then(begun, BodyMove), BodyMove), BodyMove);
            s' == s.(life := RUNNING, body := Loop, winner := Some(p))
  {
    assert s.creators[p].Outside?;
    hide Inv;
    var begin := CreatorMove(p, true);
    var s1 := Then(s, begin);
    assert s1 == s.(life := SPAWNING, winner := Some(p), creators := s.creators[p := Spawn]);
    var s2 := Then(s1, begin);
    assert s2 == s1.(body := WaitState, creators := s.creators[p := Publish]);
    var s3 := Then(s2, begin);
    assert s3.creators == s.creators;
    assert s3 == s.(life := STARTING, winner := Some(p), body := WaitState);
    hide CreatorStep;
    var s4 := Then(s3, BodyMove);
    var s5 := Then(s4, BodyMove);
    assert s5 == s3.(body := EnterRunning);
  }

  /** A shutdown stops the running thread and joins it. */
  lemma StopsAlone(s: State)
    requires Inv(s) && s.started && s.life.RUNNING? && s.body.Loop? && s.shutdown.NotYet?
    ensures var asked := Then(Then(Then(s, ShutdownMove), ShutdownMove), ShutdownMove);
            var s' := Then(Then(Then(asked, BodyMove), ShutdownMove), ShutdownMove);
            s' == s.(life := STOPPED, body := Exited, shutdown := Over, joins := 1)
  {
    assert s.joins == 0;
    hide Inv;
    var s2 := Then(Then(s, ShutdownMove), ShutdownMove);
    assert s2 == s.(shutdown := Cancel(RUNNING));
    var s3 := Then(s2, ShutdownMove);
    assert s3 == s.(life := STOPPED, shutdown := Join);
    var s4 := Then(s3, BodyMove);
    assert s4 == s3.(body := Exited);
    var s5 := Then(s4, ShutdownMove);
    assert s5 == s4.(joins := 1, shutdown := Store);
  }
}
