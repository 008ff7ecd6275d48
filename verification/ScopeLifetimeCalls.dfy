/**
 What the calls on the global scope achieve (src/sentry_scope.c): a cleanup leaves no live scope
 behind, and calls that nobody interferes with come to their end and do what they are for.
 */
module ScopeLifetimeCalls {
  import opened Prelude
  import opened ScopeLifetime

  // -------------------------------------------------------------------------- every run

  /** At the end of a cleanup the scope is not initialised. */
  ghost predicate CleanedOk(s: State) {
    forall t: nat :: t < |s.threads| && s.threads[t].pc.CleanUnlock? ==> !s.global.initialized
  }

  lemma StepKeepsCleaned(s: State, t: nat, ch: Choice)
    requires Inv(s) && CleanedOk(s) && t < |s.threads|
    ensures CleanedOk(Step(s, t, ch))
  {
    hide GlobalOk, AllRefs;
    var s' := Step(s, t, ch);
    assert ThreadOk(s.global, t, s.threads[t]);
    forall u: nat | u < |s'.threads| && s'.threads[u].pc.CleanUnlock?
      ensures !s'.global.initialized
    {
      assert ThreadOk(s.global, u, s.threads[u]);
      if u == t && s.threads[t].pc.CleanRelease? {
        CleanerHasTorn(s, t);
      }
    }
  }

  lemma CleanerHasTorn(s: State, t: nat)
    requires Inv(s) && t < |s.threads| && s.threads[t].pc.CleanRelease?
    ensures !s.global.initialized
  {
    assert ThreadOk(s.global, t, s.threads[t]);
  }

  lemma {:induction false} RunKeepsCleaned(run: seq<State>, threads: nat, n: nat)
    requires IsRun(run, threads) && n < |run|
    ensures CleanedOk(run[n])
  {
    if n > 0 {
      RunKeepsCleaned(run, threads, n - 1);
      RunKeepsInv(run, threads, n - 1);
      assert Next(run[n - 1], run[n - 1 + 1]);
      hide Inv, CleanedOk, Step;
      var t: nat, ch :| t < |run[n - 1].threads| && run[n] == Step(run[n - 1], t, ch);
      StepKeepsCleaned(run[n - 1], t, ch);
    }
  }

  /** In every run, when a cleanup is about to return there is no live scope: the data is released, or
      another thread is waiting to release it. */
  lemma CleanupLeavesNoScope(run: seq<State>, threads: nat, n: nat, t: nat)
    requires IsRun(run, threads) && n < |run| && t < |run[n].threads| && run[n].threads[t].pc.CleanUnlock?
    ensures var g := run[n].global; !g.initialized && (g.data.None? || (g.cleaner.Some? && g.cleaner.value != t))
  {
    RunKeepsInv(run, threads, n);
    RunKeepsCleaned(run, threads, n);
    hide IsRun;
    assert ThreadOk(run[n].global, t, run[n].threads[t]);
  }

  // ------------------------------------------------------------------------------- alone

  /** `n` steps of thread `t`, which makes the call `ch` if it is outside. */
  function Solo(s: State, t: nat, ch: Choice, n: nat): (r: State)
    requires t < |s.threads|
    ensures |r.threads| == |s.threads|
  {
    if n == 0 then s else Step(Solo(s, t, ch, n - 1), t, ch)
  }

  /** A getref that finds the lock free, and no cleanup under way unless the thread holds the scope
      already, returns in seven steps with one more reference to the data of a live scope. */
  lemma GetrefAlone(s: State, t: nat)
    requires Inv(s) && t < |s.threads| && s.threads[t].pc.Outside? && s.global.lock.None?
    requires s.global.cleaner.None? || s.threads[t].depth > 0
    ensures var s', g, g' := Solo(s, t, Getref, 7), s.global, Solo(s, t, Getref, 7).global;
            && s'.threads[t].pc.Outside? && s'.threads[t].depth == s.threads[t].depth + 1
            && g'.lock.None? && g'.data == Some(s'.threads[t].gen)
            && (if g.data.Some? then g'.data == g.data && g'.refcount == g.refcount + 1
                else g'.initialized && g'.refcount == 2)
  {
    hide AllRefs;
    assert ThreadOk(s.global, t, s.threads[t]);
    hide Inv, ThreadOk;
    var th, g := s.threads[t], s.global;
    assert Solo(s, t, Getref, 1) == State(g, s.threads[t := th.(pc := GetLock)]);
    assert Solo(s, t, Getref, 2) == State(g.(lock := Some(t)), s.threads[t := th.(pc := GetTest)]);
    assert Solo(s, t, Getref, 3) == State(g.(lock := Some(t)), s.threads[t := th.(pc := GetScope)]);
    var live := if g.data.Some? then g.(lock := Some(t))
                else Global(Some(t), true, Some(g.made), 1, g.made + 1, g.cleaner);
    assert Solo(s, t, Getref, 4) == State(live, s.threads[t := th.(pc := GetCount)]);
    var got := th.(gen := live.data.value);
    var counted := live.(refcount := live.refcount + 1);
    assert Solo(s, t, Getref, 5) == State(counted, s.threads[t := got.(pc := GetDepth)]);
    assert Solo(s, t, Getref, 6) == State(counted, s.threads[t := got.(pc := GetUnlock, depth := th.depth + 1)]);
    assert Solo(s, t, Getref, 7) == Step(Solo(s, t, Getref, 6), t, Getref);
  }

  /** A cleanup that finds the lock free, the scope initialised and nobody holding it returns with the
      data released. */
  lemma CleanupAlone(s: State, t: nat)
    requires Inv(s) && t < |s.threads| && s.threads[t].pc.Outside? && s.global.lock.None?
    requires s.global.initialized && AllRefs(s.threads) == 0
    ensures var s' := Solo(s, t, Cleanup, 6);
            && s'.threads == s.threads
            && s'.global == s.global.(initialized := false, data := None, cleaner := None)
  {
    hide AllRefs;
    assert s.global.refcount <= 1;
    hide Inv;
    var th, g := s.threads[t], s.global;
    assert Solo(s, t, Cleanup, 1) == State(g, s.threads[t := th.(pc := CleanLock)]);
    assert Solo(s, t, Cleanup, 2) == State(g.(lock := Some(t)), s.threads[t := th.(pc := CleanTest)]);
    var torn := g.(lock := Some(t), initialized := false, cleaner := Some(t));
    assert Solo(s, t, Cleanup, 3) == State(torn, s.threads[t := th.(pc := CleanLoop)]);
    assert Solo(s, t, Cleanup, 4) == State(torn, s.threads[t := th.(pc := CleanRelease)]);
    assert Solo(s, t, Cleanup, 5)
        == State(torn.(data := None, cleaner := None), s.threads[t := th.(pc := CleanUnlock)]);
    assert Solo(s, t, Cleanup, 6) == Step(Solo(s, t, Cleanup, 5), t, Cleanup);
    assert s.threads[t := th] == s.threads;
  }
}
