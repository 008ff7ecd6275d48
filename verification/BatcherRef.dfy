/**
 Sharing a batcher through a `sentry_batcher_ref_t` (src/sentry_batcher.c), as a step system.

 Any number of threads pin, acquire, swap and release.  A thread does one thing at a time;
 a thread of the program that holds several references is several threads here.  The
 reference a batcher is created with, the one stored in `ref->ptr` and those taken by
 `sentry__batcher_acquire` are all counted in `refcount`; pins are counted in `ref->pins`.
 */
module BatcherRef {
  import opened Prelude

  datatype Batcher = Batcher(
    refcount: int,
    frees: nat,     // how often it was freed
    freer: nat)     // the thread that took the count to zero

  datatype Thread =
    | Idle
    | Holding(b: nat)                      // has a counted reference
    // sentry__batcher_acquire
    | AcquireLock | AcquireLoad | AcquireCount(b: nat) | AcquireUnlock(got: Option<nat>)
    // sentry__batcher_release
    | Freeing(b: nat)
    // sentry__batcher_pin, sentry__batcher_unpin
    | PinLoad | PinUndo | Pinned(b: nat)
    // sentry__batcher_swap
    | SwapLock(put: Option<nat>) | SwapExchange(put: Option<nat>)
    | SwapUnlock(was: Option<nat>) | SwapWait(b: nat)

  datatype State = State(
    ptr: Option<nat>, lock: Option<nat>, pins: int, batchers: seq<Batcher>, threads: seq<Thread>)

  /** What an idle thread, or one that holds a reference, does next. */
  datatype Choice = New | Acquire | Pin | Swap | Release

  function Goto(s: State, t: nat, th: Thread): State
    requires t < |s.threads|
  {
    s.(threads := s.threads[t := th])
  }

  predicate InRange(s: State, th: Thread) {
    match th
    case Holding(b) => b < |s.batchers|
    case AcquireCount(b) => b < |s.batchers|
    case Freeing(b) => b < |s.batchers|
    case _ => true
  }

  function Step(s: State, t: nat, ch: Choice): State
    requires t < |s.threads| && InRange(s, s.threads[t])
  {
    match s.threads[t]
    case Idle =>
      (match ch
       case New => Goto(s, t, Holding(|s.batchers|)).(batchers := s.batchers + [Batcher(1, 0, 0)])
       case Acquire => Goto(s, t, AcquireLock)
       case Pin => Goto(s, t, PinLoad).(pins := s.pins + 1)
       case Swap => Goto(s, t, SwapLock(None))
       case Release => s)
    case Holding(b) =>
      if ch.Swap? then Goto(s, t, SwapLock(Some(b)))
      else
        var k := s.batchers[b];
        Goto(s, t, if k.refcount == 1 then Freeing(b) else Idle).(
          batchers := s.batchers[b := k.(refcount := k.refcount - 1, freer := t)])
    case AcquireLock =>
      if s.lock.Some? then s else Goto(s, t, AcquireLoad).(lock := Some(t))
    case AcquireLoad =>
      Goto(s, t, if s.ptr.Some? then AcquireCount(s.ptr.value) else AcquireUnlock(None))
    case AcquireCount(b) =>
      Goto(s, t, AcquireUnlock(Some(b))).(
        batchers := s.batchers[b := s.batchers[b].(refcount := s.batchers[b].refcount + 1)])
    case AcquireUnlock(got) =>
      Goto(s, t, if got.Some? then Holding(got.value) else Idle).(lock := None)
    case Freeing(b) =>
      Goto(s, t, Idle).(batchers := s.batchers[b := s.batchers[b].(frees := s.batchers[b].frees + 1)])
    case PinLoad => Goto(s, t, if s.ptr.Some? then Pinned(s.ptr.value) else PinUndo)
    case PinUndo => Goto(s, t, Idle).(pins := s.pins - 1)
    case Pinned(b) => Goto(s, t, Idle).(pins := s.pins - 1)
    case SwapLock(put) =>
      if s.lock.Some? then s else Goto(s, t, SwapExchange(put)).(lock := Some(t))
    case SwapExchange(put) => Goto(s, t, SwapUnlock(s.ptr)).(ptr := put)
    case SwapUnlock(was) =>
      Goto(s, t, if was.Some? then SwapWait(was.value) else Idle).(lock := None)
    case SwapWait(b) => if s.pins > 0 then s else Goto(s, t, Holding(b))
  }

  ghost predicate Next(s: State, s': State) {
    exists t: nat, ch: Choice :: t < |s.threads| && InRange(s, s.threads[t]) && s' == Step(s, t, ch)
  }

  ghost predicate IsRun(run: seq<State>, threads: nat) {
    && |run| > 0 && run[0] == State(None, None, 0, [], seq(threads, i => Idle))
    && forall i :: 0 <= i < |run| - 1 ==> Next(run[i], run[i + 1])
  }

  // ------------------------------------------------------------------- invariant

  /** The batcher the thread has a counted reference to. */
  function RefOf(th: Thread): Option<nat> {
    match th
    case Holding(b) => Some(b)
    case AcquireUnlock(got) => got
    case SwapLock(put) => put
    case SwapExchange(put) => put
    case SwapUnlock(was) => was
    case SwapWait(b) => Some(b)
    case _ => None
  }

  predicate Counts(th: Thread, b: nat) {
    RefOf(th) == Some(b)
  }

  predicate IsPin(th: Thread) {
    th.PinLoad? || th.PinUndo? || th.Pinned?
  }

  /** The thread swapped `b` out and has not seen the pins gone yet. */
  predicate Waits(th: Thread, b: nat) {
    (th.SwapUnlock? && th.was == Some(b)) || (th.SwapWait? && th.b == b)
  }

  function Counters(threads: seq<Thread>, b: nat): set<nat> {
    set t: nat | t < |threads| && Counts(threads[t], b)
  }

  function Pinners(threads: seq<Thread>): set<nat> {
    set t: nat | t < |threads| && IsPin(threads[t])
  }

  ghost predicate RefcountsOk(s: State) {
    forall b: nat :: b < |s.batchers| ==>
      s.batchers[b].refcount == |Counters(s.threads, b)| + if s.ptr == Some(b) then 1 else 0
  }

  /** A pinned batcher is still in place, or whoever took it out is waiting. */
  ghost predicate Guarded(s: State, b: nat) {
    s.ptr == Some(b) || exists u: nat :: u < |s.threads| && Waits(s.threads[u], b)
  }

  predicate Locks(th: Thread) {
    th.AcquireLoad? || th.AcquireCount? || th.AcquireUnlock? || th.SwapExchange? || th.SwapUnlock?
  }

  ghost predicate ThreadOk(s: State, t: nat)
    requires t < |s.threads|
  {
    var th := s.threads[t];
    && InRange(s, th)
    && (Locks(th) <==> s.lock == Some(t))
    && (th.AcquireCount? ==> s.ptr == Some(th.b))
    && (th.Pinned? ==> Guarded(s, th.b))
    && (th.Freeing? ==> s.batchers[th.b] == Batcher(0, 0, t))
    && (RefOf(th).Some? ==> RefOf(th).value < |s.batchers|)
  }

  ghost predicate BatcherOk(k: Batcher) {
    k.frees <= 1 && (k.refcount > 0 ==> k.frees == 0)
  }

  ghost predicate Inv(s: State) {
    && (s.ptr.Some? ==> s.ptr.value < |s.batchers|)
    && RefcountsOk(s)
    && s.pins == |Pinners(s.threads)|
    && (forall t: nat :: t < |s.threads| ==> ThreadOk(s, t))
    && (forall b: nat :: b < |s.batchers| ==> BatcherOk(s.batchers[b]))
  }

  // ---------------------------------------------------------------------- proofs

  lemma CountersUpdate(threads: seq<Thread>, t: nat, th: Thread, b: nat)
    requires t < |threads|
    ensures |Counters(threads[t := th], b)| - (if Counts(th, b) then 1 else 0)
         == |Counters(threads, b)| - (if Counts(threads[t], b) then 1 else 0)
  {
    hide Counts;
    var rest := Counters(threads, b) - {t};
    assert Counters(threads[t := th], b) == if Counts(th, b) then rest + {t} else rest;
    assert Counters(threads, b) == if Counts(threads[t], b) then rest + {t} else rest;
  }

  lemma PinnersUpdate(threads: seq<Thread>, t: nat, th: Thread)
    requires t < |threads|
    ensures |Pinners(threads[t := th])| - (if IsPin(th) then 1 else 0)
         == |Pinners(threads)| - (if IsPin(threads[t]) then 1 else 0)
  {
    hide IsPin;
    var rest := Pinners(threads) - {t};
    assert Pinners(threads[t := th]) == if IsPin(th) then rest + {t} else rest;
    assert Pinners(threads) == if IsPin(threads[t]) then rest + {t} else rest;
  }

  /** A batcher somebody has a counted reference to has a positive count ... */
  lemma CountedIsAlive(s: State, t: nat, b: nat)
    requires RefcountsOk(s) && t < |s.threads| && Counts(s.threads[t], b) && b < |s.batchers|
    ensures s.batchers[b].refcount >= 1
  {
    assert t in Counters(s.threads, b);
  }

  /** ... so has the one in place ... */
  lemma PtrIsAlive(s: State)
    requires RefcountsOk(s) && s.ptr.Some? && s.ptr.value < |s.batchers|
    ensures s.batchers[s.ptr.value].refcount >= 1
  {
  }

  /** ... and one that was not made yet has none. */
  lemma UnknownIsUncounted(s: State, b: nat)
    requires Inv(s) && b >= |s.batchers|
    ensures Counters(s.threads, b) == {}
  {
    hide RefOf;
    forall t: nat | t < |s.threads|
      ensures !Counts(s.threads[t], b)
    {
      assert ThreadOk(s, t);
    }
  }

  function Share(s: State, th: Thread, b: nat): nat {
    (if Counts(th, b) then 1 else 0) + if s.ptr == Some(b) then 1 else 0
  }

  /** Counts stay right when what changes in a count is what changes hands. */
  lemma RefcountsKept(s: State, s': State, t: nat)
    requires Inv(s) && t < |s.threads| && |s'.threads| == |s.threads| && |s.batchers| <= |s'.batchers|
    requires s'.threads == s.threads[t := s'.threads[t]]
    requires forall b: nat :: b < |s'.batchers| ==>
               (s'.batchers[b].refcount - Share(s', s'.threads[t], b)
                == if b < |s.batchers| then s.batchers[b].refcount - Share(s, s.threads[t], b) else 0)
    ensures RefcountsOk(s')
  {
    hide BatcherOk, ThreadOk, Pinners;
    forall b: nat | b < |s'.batchers|
      ensures s'.batchers[b].refcount == |Counters(s'.threads, b)| + if s'.ptr == Some(b) then 1 else 0
    {
      if b >= |s.batchers| {
        UnknownIsUncounted(s, b);
        assert t !in Counters(s.threads, b);
      }
      CountersUpdate(s.threads, t, s'.threads[t], b);
    }
  }

  /** A pinned batcher stays guarded: a swap takes it out only to wait for the pins. */
  ghost predicate GuardsKept(s: State, s': State, t: nat) {
    && t < |s.threads| == |s'.threads|
    && (s'.ptr == s.ptr || (s.ptr.Some? ==> Waits(s'.threads[t], s.ptr.value)))
    && (s.pins == 0 || forall b: nat :: Waits(s.threads[t], b) ==> Waits(s'.threads[t], b))
  }

  lemma GuardHolds(s: State, s': State, t: nat, u: nat)
    requires Inv(s) && t < |s.threads| && GuardsKept(s, s', t) && s'.threads == s.threads[t := s'.threads[t]]
    requires u < |s.threads| && u != t && s.threads[u].Pinned?
    ensures Guarded(s', s.threads[u].b)
  {
    var b := s.threads[u].b;
    assert ThreadOk(s, u) && u in Pinners(s.threads);
    hide RefcountsOk, BatcherOk, ThreadOk;
    if s.ptr == Some(b) {
      assert s'.ptr == Some(b) || Waits(s'.threads[t], b);
    } else {
      var w: nat :| w < |s.threads| && Waits(s.threads[w], b);
      assert Waits(s'.threads[w], b);
    }
  }

  /** What a step of thread `t` may do without disturbing the others. */
  ghost predicate Polite(s: State, s': State, t: nat) {
    && t < |s.threads| == |s'.threads| && s'.threads == s.threads[t := s'.threads[t]]
    && |s.batchers| <= |s'.batchers|
    && (s'.lock == s.lock || (s.lock in {None, Some(t)} && s'.lock in {None, Some(t)}))
    && (s'.ptr != s.ptr ==> s.lock == Some(t))
    && GuardsKept(s, s', t)
    && forall b: nat :: b < |s.batchers| && s.batchers[b].refcount == 0 && s.batchers[b].freer != t ==>
         s'.batchers[b] == s.batchers[b]
  }

  lemma OthersHold(s: State, s': State, t: nat, u: nat)
    requires Inv(s) && Polite(s, s', t) && u < |s.threads| && u != t
    ensures ThreadOk(s', u)
  {
    assert ThreadOk(s, u);
    if s.threads[u].Pinned? {
      GuardHolds(s, s', t, u);
    }
    hide Inv, Guarded, GuardsKept, RefOf, InRange, Locks;
    assert InRange(s, s.threads[u]) ==> InRange(s', s.threads[u]) by { InRangeGrows(s, s', s.threads[u]); }
  }

  lemma InRangeGrows(s: State, s': State, th: Thread)
    requires |s.batchers| <= |s'.batchers|
    ensures InRange(s, th) ==> InRange(s', th)
  {
  }

  lemma StepHolds(s: State, s': State, t: nat)
    requires Inv(s) && Polite(s, s', t) && RefcountsOk(s')
    requires ThreadOk(s', t)
    requires s'.pins - (if IsPin(s'.threads[t]) then 1 else 0) == s.pins - (if IsPin(s.threads[t]) then 1 else 0)
    requires s'.ptr.Some? ==> s'.ptr.value < |s'.batchers|
    requires forall b: nat :: b < |s'.batchers| ==> BatcherOk(s'.batchers[b])
    ensures Inv(s')
  {
    PinnersUpdate(s.threads, t, s'.threads[t]);
    hide RefcountsOk, BatcherOk, ThreadOk, IsPin, GuardsKept;
    forall u: nat | u < |s'.threads|
      ensures ThreadOk(s', u)
    {
      if u != t {
        OthersHold(s, s', t, u);
      }
    }
  }

  lemma StepIdle(s: State, t: nat, ch: Choice)
    requires Inv(s) && t < |s.threads| && s.threads[t].Idle?
    ensures Inv(Step(s, t, ch))
  {
    hide RefcountsOk, Counters, Pinners, Guarded;
    var s' := Step(s, t, ch);
    assert ThreadOk(s, t);
    if !ch.Release? {
      RefcountsKept(s, s', t);
      StepHolds(s, s', t);
    }
  }

  lemma StepHolding(s: State, t: nat, ch: Choice)
    requires Inv(s) && t < |s.threads| && s.threads[t].Holding?
    ensures InRange(s, s.threads[t]) && Inv(Step(s, t, ch))
  {
    hide RefcountsOk, Counters, Pinners, Guarded;
    assert ThreadOk(s, t);
    var s' := Step(s, t, ch);
    CountedIsAlive(s, t, s.threads[t].b);
    RefcountsKept(s, s', t);
    StepHolds(s, s', t);
  }

  lemma StepLock(s: State, t: nat, ch: Choice)
    requires Inv(s) && t < |s.threads| && (s.threads[t].AcquireLock? || s.threads[t].SwapLock?)
    ensures InRange(s, s.threads[t]) && Inv(Step(s, t, ch))
  {
    hide RefcountsOk, Counters, Pinners, Guarded;
    assert ThreadOk(s, t);
    var s' := Step(s, t, ch);
    if s' != s {
      RefcountsKept(s, s', t);
      StepHolds(s, s', t);
    }
  }

  lemma StepAcquire(s: State, t: nat, ch: Choice)
    requires Inv(s) && t < |s.threads| && (s.threads[t].AcquireLoad? || s.threads[t].AcquireUnlock?)
    ensures InRange(s, s.threads[t]) && Inv(Step(s, t, ch))
  {
    hide RefcountsOk, Counters, Pinners, Guarded;
    assert ThreadOk(s, t);
    var s' := Step(s, t, ch);
    RefcountsKept(s, s', t);
    StepHolds(s, s', t);
  }

  lemma StepCount(s: State, t: nat, ch: Choice)
    requires Inv(s) && t < |s.threads| && s.threads[t].AcquireCount?
    ensures InRange(s, s.threads[t]) && Inv(Step(s, t, ch))
  {
    hide RefcountsOk, Counters, Pinners, Guarded;
    assert ThreadOk(s, t);
    PtrIsAlive(s);
    var s' := Step(s, t, ch);
    RefcountsKept(s, s', t);
    StepHolds(s, s', t);
  }

  lemma StepPin(s: State, t: nat, ch: Choice)
    requires Inv(s) && t < |s.threads| && IsPin(s.threads[t])
    ensures InRange(s, s.threads[t]) && Inv(Step(s, t, ch))
  {
    hide RefcountsOk, Counters, Pinners;
    assert ThreadOk(s, t);
    var s' := Step(s, t, ch);
    RefcountsKept(s, s', t);
    StepHolds(s, s', t);
  }

  lemma StepFree(s: State, t: nat, ch: Choice)
    requires Inv(s) && t < |s.threads| && s.threads[t].Freeing?
    ensures InRange(s, s.threads[t]) && Inv(Step(s, t, ch))
  {
    hide RefcountsOk, Counters, Pinners, Guarded;
    assert ThreadOk(s, t);
    var s' := Step(s, t, ch);
    RefcountsKept(s, s', t);
    StepHolds(s, s', t);
  }

  lemma StepSwap(s: State, t: nat, ch: Choice)
    requires Inv(s) && t < |s.threads|
    requires s.threads[t].SwapExchange? || s.threads[t].SwapUnlock? || s.threads[t].SwapWait?
    ensures InRange(s, s.threads[t]) && Inv(Step(s, t, ch))
  {
    hide RefcountsOk, Counters, Pinners, Guarded;
    assert ThreadOk(s, t);
    var s' := Step(s, t, ch);
    if s' != s {
      RefcountsKept(s, s', t);
      StepHolds(s, s', t);
    }
  }

  lemma StepKeepsInv(s: State, t: nat, ch: Choice)
    requires Inv(s) && t < |s.threads|
    ensures InRange(s, s.threads[t]) && Inv(Step(s, t, ch))
  {
    hide Inv;
    match s.threads[t]
    case Idle => StepIdle(s, t, ch);
    case Holding(_) => StepHolding(s, t, ch);
    case AcquireLock => StepLock(s, t, ch);
    case AcquireLoad => StepAcquire(s, t, ch);
    case AcquireCount(_) => StepCount(s, t, ch);
    case AcquireUnlock(_) => StepAcquire(s, t, ch);
    case Freeing(_) => StepFree(s, t, ch);
    case PinLoad => StepPin(s, t, ch);
    case PinUndo => StepPin(s, t, ch);
    case Pinned(_) => StepPin(s, t, ch);
    case SwapLock(_) => StepLock(s, t, ch);
    case SwapExchange(_) => StepSwap(s, t, ch);
    case SwapUnlock(_) => StepSwap(s, t, ch);
    case SwapWait(_) => StepSwap(s, t, ch);
  }

  lemma {:induction false} RunKeepsInv(run: seq<State>, threads: nat, n: nat)
    requires IsRun(run, threads) && n < |run|
    ensures Inv(run[n])
  {
    if n == 0 {
      assert Pinners(run[0].threads) == {};
    } else {
      RunKeepsInv(run, threads, n - 1);
      hide Inv;
      assert Next(run[n - 1], run[n - 1 + 1]);
      var s := run[n - 1];
      var t: nat, ch :| t < |s.threads| && InRange(s, s.threads[t]) && run[n] == Step(s, t, ch);
      StepKeepsInv(s, t, ch);
    }
  }

  // -------------------------------------------------------------------- theorems

  /** In every run, a batcher returned by pin is not freed before the unpin, one that a
      thread has acquired (or swapped out) is not freed before it is released, and no
      batcher is freed twice. */
  lemma NeverFreedWhileUsed(run: seq<State>, threads: nat, n: nat, t: nat)
    requires IsRun(run, threads) && n < |run| && t < |run[n].threads|
    ensures var s, th := run[n], run[n].threads[t];
      && (forall b: nat :: (th == Pinned(b) || th == AcquireCount(b) || Counts(th, b)) ==>
            b < |s.batchers| && s.batchers[b].frees == 0 && s.batchers[b].refcount > 0)
      && (forall b: nat :: b < |s.batchers| ==> s.batchers[b].frees <= 1)
  {
    hide IsRun;
    RunKeepsInv(run, threads, n);
    var s, th := run[n], run[n].threads[t];
    assert ThreadOk(s, t);
    forall b: nat | b < |s.batchers|
      ensures BatcherOk(s.batchers[b])
    {
    }
    forall b: nat | th == Pinned(b) || th == AcquireCount(b) || Counts(th, b)
      ensures b < |s.batchers| && s.batchers[b].refcount > 0
    {
      if Counts(th, b) {
        CountedIsAlive(s, t, b);
      } else if s.ptr != Some(b) {
        var w: nat :| w < |s.threads| && Waits(s.threads[w], b);
        assert ThreadOk(s, w);
        CountedIsAlive(s, w, b);
      }
    }
  }
}
