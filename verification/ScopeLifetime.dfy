/**
 The life of the global scope (src/sentry_scope.c), as a step system.

 Any number of threads call `sentry__scope_getref`, nested or not, `sentry__scope_finish`
 and `sentry__scope_cleanup`.  `g_lock` is a mutex, `g_scope_idle` a condition variable whose
 waiters may wake at any time.  `g_scope_depth` is the field `depth` of a thread.

 Each initialisation of the scope makes a new generation of its data: `data` is
 `Some(number)` while `g_scope.data` is set.
 */
module ScopeLifetime {
  import opened Prelude

  datatype Pc =
    | Outside
    // sentry__scope_getref
    | GetLock | GetTest | GetWait | GetScope | GetCount | GetDepth | GetUnlock
    // sentry__scope_finish, sentry__scope_decref
    | FinishLock | FinishCount | FinishUnlock
    // sentry__scope_cleanup
    | CleanLock | CleanTest | CleanLoop | CleanWait | CleanRelease | CleanUnlock

  /** `gen` is the generation the thread was last handed.  No step reads it. */
  datatype Thread = Thread(pc: Pc, depth: nat, gen: nat)

  datatype Global = Global(
    lock: Option<nat>,
    initialized: bool,
    data: Option<nat>,
    refcount: int,
    made: nat,               // how many generations were made
    cleaner: Option<nat>)    // the thread that tears the scope down; no step reads it

  datatype State = State(global: Global, threads: seq<Thread>)

  /** What a thread outside of these functions does next. */
  datatype Choice = Getref | Finish | Cleanup | Skip

  function Lock(g: Global, t: nat, th: Thread, pc: Pc): (Global, Thread) {
    if g.lock.Some? then (g, th) else (g.(lock := Some(t)), th.(pc := pc))
  }

  function Unlock(g: Global, th: Thread, pc: Pc): (Global, Thread) {
    (g.(lock := None), th.(pc := pc))
  }

  function Call(th: Thread, ch: Choice): Thread {
    match ch
    case Getref => th.(pc := GetLock)
    case Finish => if th.depth > 0 then th.(pc := FinishLock, depth := th.depth - 1) else th
    case Cleanup => th.(pc := CleanLock)
    case Skip => th
  }

  function GetStep(g: Global, t: nat, th: Thread): (Global, Thread) {
    match th.pc
    case GetLock => Lock(g, t, th, GetTest)
    case GetTest =>
      if !g.initialized && g.data.Some? && th.depth == 0 then Unlock(g, th, GetWait) else (g, th.(pc := GetScope))
    case GetWait => Lock(g, t, th, GetTest)
    case GetScope =>
      if g.data.Some? then (g, th.(pc := GetCount))
      else (g.(data := Some(g.made), made := g.made + 1, refcount := 1, initialized := true), th.(pc := GetCount))
    case GetCount =>
      (g.(refcount := g.refcount + 1), th.(pc := GetDepth, gen := if g.data.Some? then g.data.value else th.gen))
    case GetDepth => (g, th.(pc := GetUnlock, depth := th.depth + 1))
    case GetUnlock => Unlock(g, th, Outside)
    case _ => (g, th)
  }

  function FinishStep(g: Global, t: nat, th: Thread): (Global, Thread) {
    match th.pc
    case FinishLock => Lock(g, t, th, FinishCount)
    case FinishCount => (g.(refcount := g.refcount - 1), th.(pc := FinishUnlock))
    case FinishUnlock => Unlock(g, th, Outside)
    case _ => (g, th)
  }

  /** With `Skip`, a cleanup finds the options set again and returns before it takes the lock. */
  function CleanStep(g: Global, t: nat, th: Thread, ch: Choice): (Global, Thread) {
    match th.pc
    case CleanLock => if ch.Skip? then (g, th.(pc := Outside)) else Lock(g, t, th, CleanTest)
    case CleanTest =>
      if g.initialized then (g.(initialized := false, cleaner := Some(t)), th.(pc := CleanLoop))
      else (g, th.(pc := CleanUnlock))
    case CleanLoop => if g.refcount > 1 then Unlock(g, th, CleanWait) else (g, th.(pc := CleanRelease))
    case CleanWait => Lock(g, t, th, CleanLoop)
    case CleanRelease => (g.(data := None, cleaner := None), th.(pc := CleanUnlock))
    case CleanUnlock => Unlock(g, th, Outside)
    case _ => (g, th)
  }

  predicate Getting(pc: Pc) {
    pc.GetLock? || pc.GetTest? || pc.GetWait? || pc.GetScope? || pc.GetCount? || pc.GetDepth? || pc.GetUnlock?
  }

  predicate Finishing(pc: Pc) {
    pc.FinishLock? || pc.FinishCount? || pc.FinishUnlock?
  }

  function Act(g: Global, t: nat, th: Thread, ch: Choice): (Global, Thread) {
    if th.pc.Outside? then (g, Call(th, ch))
    else if Getting(th.pc) then GetStep(g, t, th)
    else if Finishing(th.pc) then FinishStep(g, t, th)
    else CleanStep(g, t, th, ch)
  }

  function Step(s: State, t: nat, ch: Choice): State
    requires t < |s.threads|
  {
    var (g, th) := Act(s.global, t, s.threads[t], ch);
    State(g, s.threads[t := th])
  }

  ghost predicate Next(s: State, s': State) {
    exists t: nat, ch: Choice :: t < |s.threads| && s' == Step(s, t, ch)
  }

  ghost predicate IsRun(run: seq<State>, threads: nat) {
    && |run| > 0
    && run[0] == State(Global(None, false, None, 0, 0, None), seq(threads, i => Thread(Outside, 0, 0)))
    && forall i :: 0 <= i < |run| - 1 ==> Next(run[i], run[i + 1])
  }

  // ------------------------------------------------------------------- invariant

  /** The references a thread holds. */
  function Refs(th: Thread): nat {
    th.depth + if th.pc.GetDepth? || th.pc.FinishLock? || th.pc.FinishCount? then 1 else 0
  }

  function AllRefs(threads: seq<Thread>): nat {
    if threads == [] then 0 else AllRefs(threads[..|threads| - 1]) + Refs(threads[|threads| - 1])
  }

  predicate Locked(pc: Pc) {
    pc.GetTest? || pc.GetScope? || pc.GetCount? || pc.GetDepth? || pc.GetUnlock? || pc.FinishCount?
    || pc.FinishUnlock? || pc.CleanTest? || pc.CleanLoop? || pc.CleanRelease? || pc.CleanUnlock?
  }

  predicate Cleans(pc: Pc) {
    pc.CleanLoop? || pc.CleanWait? || pc.CleanRelease?
  }

  predicate ThreadOk(g: Global, t: nat, th: Thread) {
    && (Locked(th.pc) <==> g.lock == Some(t))
    && (Cleans(th.pc) <==> g.cleaner == Some(t))
    && (Refs(th) > 0 ==> g.data == Some(th.gen))
    && (th.pc.GetWait? ==> th.depth == 0)
    && (th.pc.GetScope? ==> g.initialized || g.data.None? || th.depth > 0)
    && (th.pc.GetCount? ==> g.data.Some? && (g.initialized || th.depth > 0))
    && (th.pc.CleanRelease? ==> g.refcount <= 1)
  }

  /** `refs` is the number of references that all threads hold. */
  predicate GlobalOk(g: Global, refs: int) {
    && (g.cleaner.Some? <==> g.data.Some? && !g.initialized)
    && (g.initialized ==> g.data.Some?)
    && (g.data.Some? ==> g.refcount == 1 + refs && g.data.value == g.made - 1)
    && (g.data.None? ==> refs == 0)
  }

  ghost predicate Inv(s: State) {
    && GlobalOk(s.global, AllRefs(s.threads))
    && forall t: nat :: t < |s.threads| ==> ThreadOk(s.global, t, s.threads[t])
  }

  lemma {:induction false} AllRefsUpdate(threads: seq<Thread>, t: nat, th: Thread)
    requires t < |threads|
    ensures AllRefs(threads[t := th]) == AllRefs(threads) + Refs(th) - Refs(threads[t])
    ensures Refs(threads[t]) <= AllRefs(threads)
  {
    var last := |threads| - 1;
    if t == last {
      assert threads[t := th][..last] == threads[..last];
    } else {
      assert threads[t := th][..last] == threads[..last][t := th];
      AllRefsUpdate(threads[..last], t, th);
    }
  }

  /** What a step of thread `t` that leads to `g'` and `th'` leaves behind. */
  predicate Keeps(g': Global, t: nat, th: Thread, th': Thread, refs: int) {
    GlobalOk(g', refs + Refs(th') - Refs(th)) && ThreadOk(g', t, th')
  }

  lemma GetKeeps(g: Global, t: nat, th: Thread, refs: int)
    requires GlobalOk(g, refs) && ThreadOk(g, t, th) && Refs(th) <= refs && Getting(th.pc)
    ensures var (g', th') := GetStep(g, t, th); Keeps(g', t, th, th', refs)
  {
  }

  lemma CleanKeeps(g: Global, t: nat, th: Thread, ch: Choice, refs: int)
    requires GlobalOk(g, refs) && ThreadOk(g, t, th) && Refs(th) <= refs
    requires !Getting(th.pc) && !Finishing(th.pc) && !th.pc.Outside?
    ensures var (g', th') := CleanStep(g, t, th, ch); Keeps(g', t, th, th', refs)
  {
  }

  /** The step of thread `t`: the counts agree again and what was known of `t` is known. */
  lemma ActKeeps(g: Global, t: nat, th: Thread, ch: Choice, refs: int)
    requires GlobalOk(g, refs) && ThreadOk(g, t, th) && Refs(th) <= refs
    ensures var (g', th') := Act(g, t, th, ch); Keeps(g', t, th, th', refs)
  {
    if Getting(th.pc) {
      hide GetStep, Keeps;
      GetKeeps(g, t, th, refs);
    } else if !Finishing(th.pc) && !th.pc.Outside? {
      hide CleanStep, Keeps;
      CleanKeeps(g, t, th, ch, refs);
    }
  }

  /** The step of thread `t` keeps what is known of any other thread `u`. */
  lemma ActKeepsOthers(g: Global, t: nat, th: Thread, ch: Choice, refs: int, u: nat, other: Thread)
    requires GlobalOk(g, refs) && ThreadOk(g, t, th) && Refs(th) <= refs
    requires u != t && ThreadOk(g, u, other) && Refs(other) <= refs
    ensures ThreadOk(Act(g, t, th, ch).0, u, other)
  {
  }

  lemma StepKeepsInv(s: State, t: nat, ch: Choice)
    requires Inv(s) && t < |s.threads|
    ensures Inv(Step(s, t, ch))
  {
    var s' := Step(s, t, ch);
    var refs := AllRefs(s.threads);
    hide Act, GlobalOk, ThreadOk, Refs;
    AllRefsUpdate(s.threads, t, s'.threads[t]);
    ActKeeps(s.global, t, s.threads[t], ch, refs);
    forall u: nat | u < |s'.threads|
      ensures ThreadOk(s'.global, u, s'.threads[u])
    {
      if u != t {
        AllRefsUpdate(s.threads, u, s.threads[u]);
        ActKeepsOthers(s.global, t, s.threads[t], ch, refs, u, s.threads[u]);
      }
    }
  }

  lemma {:induction false} NobodyHolds(threads: seq<Thread>)
    requires forall t :: 0 <= t < |threads| ==> Refs(threads[t]) == 0
    ensures AllRefs(threads) == 0
  {
    if threads != [] {
      NobodyHolds(threads[..|threads| - 1]);
    }
  }

  lemma {:induction false} RunKeepsInv(run: seq<State>, threads: nat, n: nat)
    requires IsRun(run, threads) && n < |run|
    ensures Inv(run[n])
  {
    if n == 0 {
      NobodyHolds(run[0].threads);
    } else {
      RunKeepsInv(run, threads, n - 1);
      assert Next(run[n - 1], run[n - 1 + 1]);
      var t: nat, ch :| t < |run[n - 1].threads| && run[n] == Step(run[n - 1], t, ch);
      StepKeepsInv(run[n - 1], t, ch);
    }
  }

  // -------------------------------------------------------------------- theorems

  /** A thread is about to release the data of the scope. */
  predicate Releasing(s: State, t: nat) {
    t < |s.threads| && s.threads[t].pc.CleanRelease?
  }

  /** A thread is between a getref that returned and its finish, or inside the finish before
      the reference is given back. */
  predicate Holds(s: State, t: nat) {
    t < |s.threads| && Refs(s.threads[t]) > 0
  }

  /** The data is released only when no thread holds a reference. */
  lemma ReleasedOnlyWhenIdle(run: seq<State>, threads: nat, n: nat, t: nat, u: nat)
    requires IsRun(run, threads) && n < |run| && Releasing(run[n], t)
    ensures !Holds(run[n], u)
  {
    RunKeepsInv(run, threads, n);
    hide IsRun;
    var s := run[n];
    assert ThreadOk(s.global, t, s.threads[t]);
    if u < |s.threads| {
      AllRefsUpdate(s.threads, u, s.threads[u]);
    }
  }

  /** A thread that holds a reference finds in the scope the very generation of data it was
      handed, at every moment until the reference is given back. */
  lemma HolderSeesItsData(run: seq<State>, threads: nat, n: nat, t: nat)
    requires IsRun(run, threads) && n < |run| && Holds(run[n], t)
    ensures run[n].global.data == Some(run[n].threads[t].gen)
  {
    RunKeepsInv(run, threads, n);
    hide IsRun;
    assert ThreadOk(run[n].global, t, run[n].threads[t]);
  }

  /** A top-level getref counts itself in only while the scope is initialised and nobody tears
      it down, and what it is handed is the current data. */
  lemma TopLevelGetsLiveScope(run: seq<State>, threads: nat, n: nat, t: nat, ch: Choice)
    requires IsRun(run, threads) && n < |run| && t < |run[n].threads|
    requires run[n].threads[t].pc.GetCount? && run[n].threads[t].depth == 0
    ensures run[n].global.initialized && run[n].global.cleaner.None?
    ensures Step(run[n], t, ch).threads[t].gen == run[n].global.made - 1
  {
    RunKeepsInv(run, threads, n);
    hide IsRun;
    assert ThreadOk(run[n].global, t, run[n].threads[t]);
  }

  /** A getref by a thread that already holds the scope never waits for a cleanup, and is
      handed the same data again, even while another thread tears the scope down. */
  lemma NestedNeverWaits(run: seq<State>, threads: nat, n: nat, t: nat, ch: Choice)
    requires IsRun(run, threads) && n < |run| && t < |run[n].threads| && run[n].threads[t].depth > 0
    ensures !run[n].threads[t].pc.GetWait?
    ensures run[n].threads[t].pc.GetCount? ==>
              Step(run[n], t, ch).threads[t].gen == run[n].threads[t].gen
  {
    RunKeepsInv(run, threads, n);
    hide IsRun;
    assert ThreadOk(run[n].global, t, run[n].threads[t]);
  }

  lemma {:induction false} OnlyNewDataAfter(run: seq<State>, threads: nat, n: nat, m: nat)
    requires IsRun(run, threads) && n <= m < |run| && run[n].global.data.None?
    ensures run[m].global.made >= run[n].global.made
    ensures run[m].global.data.Some? ==> run[m].global.data.value >= run[n].global.made
  {
    if n < m {
      OnlyNewDataAfter(run, threads, n, m - 1);
      assert Next(run[m - 1], run[m - 1 + 1]);
    }
  }

  /** After a cleanup released the data, every getref is handed data that
      was initialised later. */
  lemma FreshAfterCleanup(run: seq<State>, threads: nat, n: nat, t: nat, ch: Choice, m: nat, u: nat)
    requires IsRun(run, threads) && n < m < |run|
    requires Releasing(run[n], t) && run[n + 1] == Step(run[n], t, ch)
    requires u < |run[m].threads| && run[m].threads[u].pc.GetCount?
    ensures run[n].global.data.Some? && Step(run[m], u, ch).threads[u].gen > run[n].global.data.value
  {
    RunKeepsInv(run, threads, n);
    RunKeepsInv(run, threads, m);
    OnlyNewDataAfter(run, threads, n + 1, m);
    hide IsRun;
    assert ThreadOk(run[n].global, t, run[n].threads[t]);
    assert ThreadOk(run[m].global, u, run[m].threads[u]);
  }
}
