/**
 Polling and sealing of the retry queue (src/sentry_retry.c), as a step system.

 The background worker runs poll tasks one at a time; any number of threads enqueue envelopes,
 shut the queue down or seal it.  The system starts where `sentry__retry_start` returns: one
 poll is queued.  `grants` and `writes` only count: how often the right to submit a poll was
 won, and how many envelopes were written.
 */
module RetryPoll {
  import opened Prelude

  datatype Poll = Idle | Scheduled | Shutdown
  datatype Phase = Startup | Running | Sealed

  datatype Pc =
    // the worker
    | WorkerIdle | PollFetch | PollClear | PollSend | PollGrant | PollSubmit | PollRun
    // other threads
    | Outside
    | EnqueueLock | EnqueueTest | EnqueueWrite | EnqueueUnlock(ok: bool) | EnqueueRun | EnqueueGrant | EnqueueSubmit
    | ShutdownDrop | ShutdownStore
    | SealLock | SealStore | SealUnlock | SealDone

  datatype Global = Global(
    scheduled: Poll,
    phase: Phase,
    lock: Option<nat>,   // sealed_lock
    queued: nat,         // poll tasks in the queue of the worker
    grants: nat,
    writes: nat)

  /** Thread 0 is the worker. */
  datatype State = State(global: Global, threads: seq<Pc>)

  /** What is left open: what a thread does next, and the outcome of a write or a send. */
  datatype Choice = Enqueue | Stop | Seal | Good | Bad

  function Submit(g: Global): Global {
    g.(queued := g.queued + 1)
  }

  /** The right to submit a poll goes to whoever finds none scheduled. */
  function Grant(g: Global): Option<Global> {
    if g.scheduled.Idle? then Some(g.(scheduled := Scheduled, grants := g.grants + 1)) else None
  }

  function ToRunning(g: Global): Global {
    if g.phase.Startup? then g.(phase := Running) else g
  }

  function Lock(g: Global, t: nat, pc: Pc, next: Pc): (Global, Pc) {
    if g.lock.Some? then (g, pc) else (g.(lock := Some(t)), next)
  }

  function WorkerStep(g: Global, pc: Pc, ch: Choice): (Global, Pc) {
    match pc
    case WorkerIdle => if g.queued > 0 then (g.(queued := g.queued - 1), PollFetch) else (g, pc)
    case PollFetch => (g, PollClear)
    case PollClear => (if g.scheduled.Scheduled? then g.(scheduled := Idle) else g, PollSend)
    case PollSend => (g, if ch.Good? then PollGrant else PollRun)
    case PollGrant => if Grant(g).Some? then (Grant(g).value, PollSubmit) else (g, PollRun)
    case PollSubmit => (Submit(g), PollRun)
    case PollRun => (ToRunning(g), WorkerIdle)
    case _ => (g, pc)
  }

  function ThreadStep(g: Global, t: nat, pc: Pc, ch: Choice): (Global, Pc) {
    match pc
    case Outside =>
      (g, match ch case Enqueue => EnqueueLock case Stop => ShutdownDrop case Seal => SealLock case _ => Outside)
    case EnqueueLock => Lock(g, t, pc, EnqueueTest)
    case EnqueueTest => (g, if g.phase.Sealed? then EnqueueUnlock(false) else EnqueueWrite)
    case EnqueueWrite =>
      if ch.Good? then (g.(writes := g.writes + 1), EnqueueUnlock(true)) else (g, EnqueueUnlock(false))
    case EnqueueUnlock(ok) => (g.(lock := None), if ok then EnqueueRun else Outside)
    case EnqueueRun => (ToRunning(g), EnqueueGrant)
    case EnqueueGrant => if Grant(g).Some? then (Grant(g).value, EnqueueSubmit) else (g, Outside)
    case EnqueueSubmit => (Submit(g), Outside)
    case ShutdownDrop => (g.(queued := 0), ShutdownStore)
    case ShutdownStore => (g.(scheduled := Shutdown), Outside)
    case SealLock => Lock(g, t, pc, SealStore)
    case SealStore => (g.(phase := Sealed), SealUnlock)
    case SealUnlock => (g.(lock := None), SealDone)
    case _ => (g, pc)
  }

  function Act(g: Global, t: nat, pc: Pc, ch: Choice): (Global, Pc) {
    if t == 0 then WorkerStep(g, pc, ch) else ThreadStep(g, t, pc, ch)
  }

  function Step(s: State, t: nat, ch: Choice): State
    requires t < |s.threads|
  {
    var (g, pc) := Act(s.global, t, s.threads[t], ch);
    State(g, s.threads[t := pc])
  }

  ghost predicate Next(s: State, s': State) {
    exists t: nat, ch: Choice :: t < |s.threads| && s' == Step(s, t, ch)
  }

  ghost predicate IsRun(run: seq<State>, threads: nat) {
    && |run| > 0
    && run[0] == State(Global(Scheduled, Startup, None, 1, 1, 0), [WorkerIdle] + seq(threads, i => Outside))
    && forall i :: 0 <= i < |run| - 1 ==> Next(run[i], run[i + 1])
  }

  // --------------------------------------------------------------------------- invariant

  /** A thread holds a poll: it won the right to submit one and has not done so, or it is the worker
      with a poll that it took from the queue and has not marked as taken. */
  function Holds(pc: Pc): nat {
    if pc.PollFetch? || pc.PollClear? || pc.PollSubmit? || pc.EnqueueSubmit? then 1 else 0
  }

  function AllHold(threads: seq<Pc>): nat {
    if threads == [] then 0 else AllHold(threads[..|threads| - 1]) + Holds(threads[|threads| - 1])
  }

  lemma {:induction false} AllHoldUpdate(threads: seq<Pc>, t: nat, pc: Pc)
    requires t < |threads|
    ensures AllHold(threads[t := pc]) == AllHold(threads) + Holds(pc) - Holds(threads[t])
    ensures Holds(threads[t]) <= AllHold(threads)
  {
    var last := |threads| - 1;
    if t == last {
      assert threads[t := pc][..last] == threads[..last];
    } else {
      assert threads[t := pc][..last] == threads[..last][t := pc];
      AllHoldUpdate(threads[..last], t, pc);
    }
  }

  predicate HoldsLock(pc: Pc) {
    pc.EnqueueTest? || pc.EnqueueWrite? || pc.EnqueueUnlock? || pc.SealStore? || pc.SealUnlock?
  }

  predicate ThreadOk(g: Global, t: nat, pc: Pc) {
    && (HoldsLock(pc) <==> g.lock == Some(t))
    && (pc.EnqueueWrite? ==> !g.phase.Sealed?)
    && (pc.SealUnlock? || pc.SealDone? ==> g.phase.Sealed?)
    && (t == 0 <==> pc.WorkerIdle? || pc.PollFetch? || pc.PollClear? || pc.PollSend? || pc.PollGrant? || pc.PollSubmit?
                    || pc.PollRun?)
  }

  /** `held` is the number of polls that threads hold. */
  predicate GlobalOk(g: Global, held: int) {
    g.queued + held <= 1 && (g.scheduled.Idle? ==> g.queued + held == 0)
  }

  ghost predicate Inv(s: State) {
    && GlobalOk(s.global, AllHold(s.threads))
    && forall t: nat :: t < |s.threads| ==> ThreadOk(s.global, t, s.threads[t])
  }

  lemma ActKeeps(g: Global, t: nat, pc: Pc, ch: Choice, held: int)
    requires GlobalOk(g, held) && ThreadOk(g, t, pc) && 0 <= Holds(pc) <= held
    ensures var (g', pc') := Act(g, t, pc, ch);
            GlobalOk(g', held + Holds(pc') - Holds(pc)) && ThreadOk(g', t, pc')
  {
  }

  lemma ActKeepsOthers(g: Global, t: nat, pc: Pc, ch: Choice, u: nat, other: Pc)
    requires ThreadOk(g, t, pc) && u != t && ThreadOk(g, u, other)
    ensures ThreadOk(Act(g, t, pc, ch).0, u, other)
  {
  }

  lemma StepKeepsInv(s: State, t: nat, ch: Choice)
    requires Inv(s) && t < |s.threads|
    ensures Inv(Step(s, t, ch))
  {
    hide Act, GlobalOk, ThreadOk, Holds;
    var s' := Step(s, t, ch);
    AllHoldUpdate(s.threads, t, s'.threads[t]);
    ActKeeps(s.global, t, s.threads[t], ch, AllHold(s.threads));
    forall u: nat | u < |s'.threads|
      ensures ThreadOk(s'.global, u, s'.threads[u])
    {
      if u != t {
        ActKeepsOthers(s.global, t, s.threads[t], ch, u, s.threads[u]);
      }
    }
  }

  lemma {:induction false} NobodyHolds(threads: seq<Pc>)
    requires forall t :: 0 <= t < |threads| ==> Holds(threads[t]) == 0
    ensures AllHold(threads) == 0
  {
    if threads != [] {
      NobodyHolds(threads[..|threads| - 1]);
    }
  }

  lemma {:induction false} RunKeepsInv(run: seq<State>, threads: nat, n: nat)
    requires IsRun(run, threads) && n < |run|
    ensures Inv(run[n])
  {
    if n == 0 {
      NobodyHolds(run[0].threads);
    } else {
      RunKeepsInv(run, threads, n - 1);
      assert Next(run[n - 1], run[n - 1 + 1]);
      var t: nat, ch :| t < |run[n - 1].threads| && run[n] == Step(run[n - 1], t, ch);
      StepKeepsInv(run[n - 1], t, ch);
    }
  }

  // ---------------------------------------------------------------------------- theorems

  predicate Granted(pc: Pc) {
    pc.PollSubmit? || pc.EnqueueSubmit?
  }

  /** At most one poll is queued or granted: never two in the queue, never one in the queue while a
      thread may submit one, and never two threads that may. */
  lemma AtMostOnePoll(run: seq<State>, threads: nat, n: nat, t: nat, u: nat)
    requires IsRun(run, threads) && n < |run|
    ensures run[n].global.queued <= 1
    ensures t < |run[n].threads| && Granted(run[n].threads[t]) ==> run[n].global.queued == 0
    ensures t < |run[n].threads| && u < |run[n].threads| && Granted(run[n].threads[t]) && Granted(run[n].threads[u]) ==>
              t == u
  {
    RunKeepsInv(run, threads, n);
    hide IsRun;
    var s := run[n];
    if t < |s.threads| && Granted(s.threads[t]) {
      AllHoldUpdate(s.threads, t, s.threads[t]);
      if u < |s.threads| && Granted(s.threads[u]) && t != u {
        AllHoldUpdate(s.threads, t, Outside);
        AllHoldUpdate(s.threads[t := Outside], u, Outside);
      }
    }
  }

  /** Once a shutdown is stored it stays, and no poll is granted any more. */
  lemma {:induction false} NoGrantAfterShutdown(run: seq<State>, threads: nat, n: nat, m: nat)
    requires IsRun(run, threads) && n <= m < |run| && run[n].global.scheduled.Shutdown?
    ensures run[m].global.scheduled.Shutdown? && run[m].global.grants == run[n].global.grants
  {
    if n < m {
      NoGrantAfterShutdown(run, threads, n, m - 1);
      assert Next(run[m - 1], run[m - 1 + 1]);
    }
  }

  /** Once the queue is sealed it stays sealed, and no envelope is written any more. */
  lemma {:induction false} SealedForGood(run: seq<State>, threads: nat, n: nat, m: nat)
    requires IsRun(run, threads) && n <= m < |run| && run[n].global.phase.Sealed?
    ensures run[m].global.phase.Sealed? && run[m].global.writes == run[n].global.writes
  {
    if n < m {
      SealedForGood(run, threads, n, m - 1);
      RunKeepsInv(run, threads, m - 1);
      assert Next(run[m - 1], run[m - 1 + 1]);
      var t: nat, ch :| t < |run[m - 1].threads| && run[m] == Step(run[m - 1], t, ch);
      assert ThreadOk(run[m - 1].global, t, run[m - 1].threads[t]);
    }
  }

  /** Nothing is written after a call of seal has returned. */
  lemma NoWriteAfterSeal(run: seq<State>, threads: nat, n: nat, m: nat, t: nat)
    requires IsRun(run, threads) && n <= m < |run|
    requires t < |run[n].threads| && run[n].threads[t].SealDone?
    ensures run[m].global.writes == run[n].global.writes
  {
    RunKeepsInv(run, threads, n);
    assert ThreadOk(run[n].global, t, run[n].threads[t]);
    SealedForGood(run, threads, n, m);
  }

  // ------------------------------------------------------------------- a poll will come

  /** A shutdown has dropped the queued poll and is about to say so. */
  predicate Stopping(threads: seq<Pc>) {
    exists t :: 0 <= t < |threads| && threads[t].ShutdownStore?
  }

  /** While the state says that a poll is scheduled there is one, queued or in the hands of a thread,
      unless a shutdown has just dropped it. */
  ghost predicate PollOk(s: State) {
    s.global.scheduled.Scheduled? && !Stopping(s.threads) ==> s.global.queued + AllHold(s.threads) == 1
  }

  lemma StoppingStays(threads: seq<Pc>, t: nat, pc: Pc)
    requires t < |threads| && !threads[t].ShutdownStore? && Stopping(threads)
    ensures Stopping(threads[t := pc])
  {
    var u :| 0 <= u < |threads| && threads[u].ShutdownStore?;
    assert threads[t := pc][u].ShutdownStore?;
  }

  /** What a step does to the poll, by the numbers. */
  lemma ActKeepsPoll(g: Global, t: nat, pc: Pc, ch: Choice, held: int)
    requires GlobalOk(g, held) && ThreadOk(g, t, pc) && 0 <= Holds(pc) <= held
    ensures var (g', pc') := Act(g, t, pc, ch);
            && (pc.ShutdownStore? ==> g'.scheduled.Shutdown?)
            && (g'.scheduled.Scheduled? && !pc'.ShutdownStore? && !pc.ShutdownStore? ==>
                  (g.scheduled.Scheduled? ==> g'.queued + held + Holds(pc') - Holds(pc) == g.queued + held)
                  && (!g.scheduled.Scheduled? ==> g'.queued + held + Holds(pc') - Holds(pc) == 1))
  {
  }

  lemma StepKeepsPoll(s: State, t: nat, ch: Choice)
    requires Inv(s) && PollOk(s) && t < |s.threads|
    ensures PollOk(Step(s, t, ch))
  {
    hide Act, GlobalOk, ThreadOk, Holds, AllHold;
    var s' := Step(s, t, ch);
    AllHoldUpdate(s.threads, t, s'.threads[t]);
    assert ThreadOk(s.global, t, s.threads[t]);
    ActKeepsPoll(s.global, t, s.threads[t], ch, AllHold(s.threads));
    if s'.global.scheduled.Scheduled? && !Stopping(s'.threads) {
      assert !s'.threads[t].ShutdownStore?;
      if Stopping(s.threads) && !s.threads[t].ShutdownStore? {
        StoppingStays(s.threads, t, s'.threads[t]);
      }
    }
  }

  lemma {:induction false} RunKeepsPoll(run: seq<State>, threads: nat, n: nat)
    requires IsRun(run, threads) && n < |run|
    ensures PollOk(run[n])
  {
    if n == 0 {
      NobodyHolds(run[0].threads);
    } else {
      RunKeepsPoll(run, threads, n - 1);
      RunKeepsInv(run, threads, n - 1);
      assert Next(run[n - 1], run[n - 1 + 1]);
      hide Inv, PollOk, Step;
      var t: nat, ch :| t < |run[n - 1].threads| && run[n] == Step(run[n - 1], t, ch);
      StepKeepsPoll(run[n - 1], t, ch);
    }
  }

  /** No wake-up is lost: in every run, when an enqueue has written its envelope and is through, a poll
      that has not begun to send is queued or in the hands of a thread, or a shutdown has begun. */
  lemma EnqueueLeavesAPoll(run: seq<State>, threads: nat, n: nat, t: nat, ch: Choice)
    requires IsRun(run, threads) && n < |run| && 0 < t < |run[n].threads|
    requires run[n].threads[t].EnqueueGrant? || run[n].threads[t].EnqueueSubmit?
    ensures var s' := Step(run[n], t, ch);
            s'.threads[t].Outside? ==>
              || s'.global.queued + AllHold(s'.threads) == 1
              || s'.global.scheduled.Shutdown? || Stopping(s'.threads)
  {
    RunKeepsInv(run, threads, n);
    RunKeepsPoll(run, threads, n);
    hide IsRun;
    var s := run[n];
    StepKeepsInv(s, t, ch);
    StepKeepsPoll(s, t, ch);
    var s' := Step(s, t, ch);
    AllHoldUpdate(s.threads, t, s'.threads[t]);
    hide AllHold;
    assert ThreadOk(s.global, t, s.threads[t]);
  }

  // ------------------------------------------------------------------------------ alone

  /** `n` steps of thread `t`. */
  function Solo(s: State, t: nat, ch: Choice, n: nat): (r: State)
    requires t < |s.threads|
    ensures |r.threads| == |s.threads|
  {
    if n == 0 then s else Step(Solo(s, t, ch, n - 1), t, ch)
  }

  lemma EnqueueWrites(s: State, t: nat)
    requires 0 < t < |s.threads| && s.threads[t].EnqueueLock? && s.global.lock.None? && !s.global.phase.Sealed?
    ensures Solo(s, t, Good, 4) == State(s.global.(writes := s.global.writes + 1), s.threads[t := EnqueueRun])
  {
    hide WorkerStep;
    var g := s.global;
    assert Solo(s, t, Good, 1) == State(g.(lock := Some(t)), s.threads[t := EnqueueTest]);
    assert Solo(s, t, Good, 2) == State(g.(lock := Some(t)), s.threads[t := EnqueueWrite]);
    var written := g.(writes := g.writes + 1);
    assert Solo(s, t, Good, 3) == State(written.(lock := Some(t)), s.threads[t := EnqueueUnlock(true)]);
  }

  /** An enqueue that finds the lock free and the queue not sealed, and whose write succeeds, writes the
      envelope and leaves a poll scheduled, if there was no shutdown. */
  lemma EnqueueAlone(s: State, t: nat)
    requires Inv(s) && 0 < t < |s.threads| && s.threads[t].EnqueueLock?
    requires s.global.lock.None? && !s.global.phase.Sealed?
    ensures var g, s' := s.global, Solo(s, t, Good, if s.global.scheduled.Idle? then 7 else 6);
            var g' := s'.global;
            && s'.threads[t].Outside?
            && g'.writes == g.writes + 1 && g'.lock.None? && g'.phase.Running?
            && (if g.scheduled.Idle? then g'.scheduled.Scheduled? && g'.queued == g.queued + 1
                else g'.scheduled == g.scheduled && g'.queued == g.queued)
  {
    hide Inv, WorkerStep;
    EnqueueWrites(s, t);
    var g, written := s.global, s.global.(writes := s.global.writes + 1);
    var running := written.(phase := Running);
    assert Solo(s, t, Good, 5) == State(running, s.threads[t := EnqueueGrant]);
    if g.scheduled.Idle? {
      var granted := running.(scheduled := Scheduled, grants := g.grants + 1);
      assert Solo(s, t, Good, 6) == State(granted, s.threads[t := EnqueueSubmit]);
      assert Solo(s, t, Good, 7) == State(granted.(queued := g.queued + 1), s.threads[t := Outside]);
    } else {
      assert Solo(s, t, Good, 6) == State(running, s.threads[t := Outside]);
    }
  }
}
