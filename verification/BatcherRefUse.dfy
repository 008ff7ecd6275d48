/**
 What pin, acquire and release give (src/sentry_batcher.c), in every run: the batcher that is in
 place, and no batcher is left behind when nobody refers to it any more.
 */
module BatcherRefUse {
  import opened Prelude
  import opened BatcherRef

  // ------------------------------------------------------------------------- acquire, pin

  /** What an acquire has found is in place until it unlocks. */
  ghost predicate FoundOk(s: State) {
    forall t: nat :: t < |s.threads| && s.threads[t].AcquireUnlock? ==> s.threads[t].got == s.ptr
  }

  lemma OnlyItself(s: State, t: nat, ch: Choice, u: nat)
    requires t < |s.threads| && InRange(s, s.threads[t]) && u < |s.threads| && u != t
    ensures |Step(s, t, ch).threads| == |s.threads| && Step(s, t, ch).threads[u] == s.threads[u]
  {
  }

  /** The pointer changes only at the exchange of a swap, which has the lock. */
  lemma OnlySwapsChange(s: State, t: nat, ch: Choice)
    requires t < |s.threads| && InRange(s, s.threads[t])
    ensures Step(s, t, ch).ptr == if s.threads[t].SwapExchange? then s.threads[t].put else s.ptr
  {
  }

  lemma FoundKept(s: State, t: nat, ch: Choice)
    requires Inv(s) && FoundOk(s) && t < |s.threads| && InRange(s, s.threads[t])
    ensures FoundOk(Step(s, t, ch))
  {
    hide RefcountsOk, BatcherOk, Pinners, Guarded;
    var s' := Step(s, t, ch);
    OnlySwapsChange(s, t, ch);
    forall u: nat | u < |s'.threads| && s'.threads[u].AcquireUnlock?
      ensures s'.threads[u].got == s'.ptr
    {
      assert ThreadOk(s, t);
      if u != t {
        OnlyItself(s, t, ch, u);
        assert ThreadOk(s, u);
      }
    }
  }

  lemma {:induction false} RunKeepsFound(run: seq<State>, threads: nat, n: nat)
    requires IsRun(run, threads) && n < |run|
    ensures FoundOk(run[n])
  {
    if n > 0 {
      RunKeepsFound(run, threads, n - 1);
      RunKeepsInv(run, threads, n - 1);
      hide Inv, FoundOk, Step;
      assert Next(run[n - 1], run[n - 1 + 1]);
      var s := run[n - 1];
      var t: nat, ch :| t < |s.threads| && InRange(s, s.threads[t]) && run[n] == Step(s, t, ch);
      FoundKept(s, t, ch);
    }
  }

  /** In every run, an acquire that returns gives a counted reference to the batcher that is in place
      at that moment, and nothing exactly if there is none. */
  lemma AcquireGetsWhatIsInPlace(run: seq<State>, threads: nat, n: nat, t: nat, ch: Choice)
    requires IsRun(run, threads) && n < |run| && t < |run[n].threads| && run[n].threads[t].AcquireUnlock?
    ensures InRange(run[n], run[n].threads[t])
    ensures var s, s' := run[n], Step(run[n], t, ch);
            && s'.ptr == s.ptr
            && s'.threads[t] == if s.ptr.Some? then Holding(s.ptr.value) else Idle
  {
    RunKeepsFound(run, threads, n);
    hide IsRun;
  }

  /** A thread is inside a call of acquire. */
  predicate Acquires(th: Thread) {
    th.AcquireLock? || th.AcquireLoad? || th.AcquireCount? || th.AcquireUnlock?
  }

  /** An acquire returns from its unlock only, and a pin gives the batcher in place at its load, and
      fails exactly if there is none. */
  lemma OnlyWayOut(s: State, t: nat, ch: Choice)
    requires t < |s.threads| && InRange(s, s.threads[t])
    ensures Acquires(s.threads[t]) && !Acquires(Step(s, t, ch).threads[t]) ==> s.threads[t].AcquireUnlock?
    ensures s.threads[t].PinLoad? ==>
              && (forall b: nat :: Step(s, t, ch).threads[t] == Pinned(b) <==> s.ptr == Some(b))
              && (Step(s, t, ch).threads[t] == PinUndo <==> s.ptr.None?)
  {
  }

  // --------------------------------------------------------------------------- no leaks

  /** A batcher whose count is zero is freed, or the thread that took the count to zero is at it. */
  predicate DeadOk(s: State, b: nat)
    requires b < |s.batchers|
  {
    var k := s.batchers[b];
    k.refcount == 0 ==> k.frees == 1 || (k.freer < |s.threads| && s.threads[k.freer] == Freeing(b))
  }

  ghost predicate DeadAllOk(s: State) {
    forall b: nat :: b < |s.batchers| ==> DeadOk(s, b)
  }

  lemma DeadKept(s: State, t: nat, ch: Choice)
    requires Inv(s) && DeadAllOk(s) && t < |s.threads| && InRange(s, s.threads[t])
    ensures DeadAllOk(Step(s, t, ch))
  {
    hide RefcountsOk, Pinners, Guarded, GuardsKept;
    var s' := Step(s, t, ch);
    assert ThreadOk(s, t);
    forall b: nat | b < |s'.batchers|
      ensures DeadOk(s', b)
    {
      if b < |s.batchers| {
        assert DeadOk(s, b) && BatcherOk(s.batchers[b]);
        if s.threads[t] == AcquireCount(b) {
          PtrIsAlive(s);
        }
      }
    }
  }

  lemma {:induction false} RunKeepsDead(run: seq<State>, threads: nat, n: nat)
    requires IsRun(run, threads) && n < |run|
    ensures DeadAllOk(run[n])
  {
    if n > 0 {
      RunKeepsDead(run, threads, n - 1);
      RunKeepsInv(run, threads, n - 1);
      hide Inv, DeadAllOk, Step;
      assert Next(run[n - 1], run[n - 1 + 1]);
      var s := run[n - 1];
      var t: nat, ch :| t < |s.threads| && InRange(s, s.threads[t]) && run[n] == Step(s, t, ch);
      DeadKept(s, t, ch);
    }
  }

  /** In every run, a batcher is freed exactly if it is not in place, no thread has a counted reference
      to it and none is about to free it. */
  lemma FreedExactlyWhenUnused(run: seq<State>, threads: nat, n: nat, b: nat)
    requires IsRun(run, threads) && n < |run| && b < |run[n].batchers|
    ensures var s := run[n];
            s.batchers[b].frees == 1 <==>
              && s.ptr != Some(b)
              && forall t: nat :: t < |s.threads| ==> !Counts(s.threads[t], b) && s.threads[t] != Freeing(b)
  {
    RunKeepsInv(run, threads, n);
    RunKeepsDead(run, threads, n);
    hide IsRun;
    var s := run[n];
    assert DeadOk(s, b) && BatcherOk(s.batchers[b]);
    forall t: nat | t < |s.threads| && s.batchers[b].frees == 1
      ensures !Counts(s.threads[t], b) && s.threads[t] != Freeing(b)
    {
      assert ThreadOk(s, t);
      if Counts(s.threads[t], b) {
        CountedIsAlive(s, t, b);
      }
    }
    if s.ptr != Some(b) && forall t: nat :: t < |s.threads| ==> !Counts(s.threads[t], b) && s.threads[t] != Freeing(b) {
      assert Counters(s.threads, b) == {};
    }
  }
}
