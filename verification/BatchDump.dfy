/**
 What a crash dumper achieves (src/sentry_batcher.c), in every run: it leaves its loop only when it
 has nothing more to claim, and what it claimed is on disk.
 */
module BatchDump {
  import opened Prelude
  import opened BatchTasks

  /** Of the first `n` tasks in the list none is left to claim, and `busy` says whether a worker is
      at one of them. */
  ghost predicate Scanned(s: State, n: nat, busy: bool) {
    && n <= |s.list|
    && (forall p :: 0 <= p < n ==> s.list[p] < |s.tasks|)
    && (forall p :: 0 <= p < n ==> var k := s.tasks[s.list[p]]; k.state == Dumped || Busy(k.state))
    && (busy <==> exists p :: 0 <= p < n && Busy(s.tasks[s.list[p]].state))
  }

  ghost predicate ScanOk(s: State, x: Dumper) {
    && (x.Scan? ==> Scanned(s, x.at, x.busy))
    && (x.DumpUnlock? ==> Scanned(s, |s.list|, x.busy))
  }

  ghost predicate ScansOk(s: State) {
    forall d: nat :: d < |s.dumpers| ==> ScanOk(s, s.dumpers[d])
  }

  // ------------------------------------------------------------------------------- steps

  /** List and states are as they were, but for new tasks. */
  ghost predicate SameStates(s: State, s': State) {
    && s'.list == s.list && |s.tasks| <= |s'.tasks|
    && forall i :: 0 <= i < |s.tasks| ==> s'.tasks[i].state == s.tasks[i].state
  }

  lemma ScanOkKept(s: State, s': State, x: Dumper)
    requires ScanOk(s, x) && SameStates(s, s')
    ensures ScanOk(s', x)
  {
  }

  /** While a dumper has the lock, workers change neither the list nor a state. */
  lemma WorkerIsLockedOut(s: State, i: nat, accepted: bool)
    requires Inv(s) && i < |s.tasks| && s.lock.Some? && s.lock.value.Crash?
    ensures SameStates(s, WorkerStep(s, i, accepted))
  {
    assert TaskOk(s, i);
    hide Inv, OwnershipOk, DumpedOk, StateOk, InList;
  }

  lemma DumperIsLockedOut(s: State, d: nat, e: nat, timeout: bool)
    requires Inv(s) && d < |s.dumpers| && e < |s.dumpers| && d != e && s.lock == Some(Crash(d))
    requires DumperInRange(s, s.dumpers[e])
    ensures SameStates(s, DumperStep(s, e, timeout))
  {
    assert DumperOk(s, e);
    hide Inv;
  }

  /** The other dumpers are as they were. */
  lemma OnlyItself(s: State, e: nat, timeout: bool, d: nat)
    requires e < |s.dumpers| && DumperInRange(s, s.dumpers[e]) && d < |s.dumpers| && d != e
    ensures var s' := DumperStep(s, e, timeout); |s'.dumpers| == |s.dumpers| && s'.dumpers[d] == s.dumpers[d]
  {
  }

  lemma WorkerLeavesDumpers(s: State, i: nat, accepted: bool)
    requires i < |s.tasks|
    ensures WorkerStep(s, i, accepted).dumpers == s.dumpers
  {
  }

  /** A dumper goes on with its scan, or starts one. */
  lemma OwnScan(s: State, d: nat, timeout: bool)
    requires Inv(s) && d < |s.dumpers| && DumperInRange(s, s.dumpers[d]) && ScanOk(s, s.dumpers[d])
    ensures d < |DumperStep(s, d, timeout).dumpers|
    ensures ScanOk(DumperStep(s, d, timeout), DumperStep(s, d, timeout).dumpers[d])
  {
    hide TaskOk, DumperOk, Distinct;
  }

  lemma MoveKeepsScans(s: State, move: Move)
    requires Inv(s) && ScansOk(s) && Enabled(s, move)
    ensures ScansOk(Step(s, move))
  {
    hide Inv, ScanOk, DumperStep, WorkerStep;
    var s' := Step(s, move);
    forall d: nat | d < |s'.dumpers|
      ensures ScanOk(s', s'.dumpers[d])
    {
      match move
      case WorkerMove(i, accepted) =>
        WorkerLeavesDumpers(s, i, accepted);
        if s.dumpers[d].Scan? || s.dumpers[d].DumpUnlock? {
          HasTheLock(s, d);
          WorkerIsLockedOut(s, i, accepted);
          ScanOkKept(s, s', s.dumpers[d]);
        } else {
          NotScanning(s', s.dumpers[d]);
        }
      case CrashMove(e, timeout) =>
        if d == e {
          OwnScan(s, d, timeout);
        } else {
          SameDumpers(s, e, timeout);
          OnlyItself(s, e, timeout, d);
          if s.dumpers[d].Scan? || s.dumpers[d].DumpUnlock? {
            HasTheLock(s, d);
            DumperIsLockedOut(s, d, e, timeout);
            ScanOkKept(s, s', s.dumpers[d]);
          } else {
            NotScanning(s', s.dumpers[d]);
          }
        }
      case TaskMove => ScanOkKept(s, s', s.dumpers[d]);
    }
  }

  lemma SameDumpers(s: State, e: nat, timeout: bool)
    requires e < |s.dumpers| && DumperInRange(s, s.dumpers[e])
    ensures |DumperStep(s, e, timeout).dumpers| == |s.dumpers|
  {
  }

  lemma NotScanning(s: State, x: Dumper)
    requires !x.Scan? && !x.DumpUnlock?
    ensures ScanOk(s, x)
  {
  }

  lemma HasTheLock(s: State, d: nat)
    requires Inv(s) && d < |s.dumpers| && CrashLocked(s.dumpers[d])
    ensures s.lock == Some(Crash(d))
  {
    assert DumperOk(s, d);
    hide Inv;
  }

  lemma {:induction false} RunKeepsScans(run: seq<State>, dumpers: nat, n: nat)
    requires IsRun(run, dumpers) && n < |run|
    ensures ScansOk(run[n])
  {
    hide Inv, ScanOk, Step;
    if n == 0 {
      forall d: nat | d < |run[0].dumpers| ensures ScanOk(run[0], run[0].dumpers[d]) {
        NotScanning(run[0], run[0].dumpers[d]);
      }
    } else {
      RunKeepsScans(run, dumpers, n - 1);
      RunKeepsInv(run, dumpers, n - 1);
      assert n - 1 < |run| - 1 && run[n - 1 + 1] == run[n];
      var move :| Enabled(run[n - 1], move) && run[n] == Step(run[n - 1], move);
      hide IsRun;
      MoveKeepsScans(run[n - 1], move);
    }
  }

  // ---------------------------------------------------------------------------- theorems

  /** In every run, a dumper leaves its loop in one of three ways.  It gave up on the lock; or every
      task in the list is dumped; or its attempts are used up, and then every task in the list is
      dumped or a worker is at it.  In all three, what this dumper claimed is serialized, released
      and written. */
  lemma DumpLeavesNothing(run: seq<State>, dumpers: nat, n: nat, d: nat, timeout: bool)
    requires IsRun(run, dumpers) && n < |run|
    requires d < |run[n].dumpers| && !run[n].dumpers[d].Stopped? && DumperInRange(run[n], run[n].dumpers[d])
    requires DumperStep(run[n], d, timeout).dumpers[d].Stopped?
    ensures var s, s', x := run[n], DumperStep(run[n], d, timeout), run[n].dumpers[d];
            && s'.tasks == s.tasks && s'.list == s.list
            && (|| (x.DumpLock? && s.lock.Some? && timeout)
                || (forall at :: 0 <= at < |s.list| ==> s.list[at] < |s.tasks| && s.tasks[s.list[at]].state == Dumped)
                || (&& x.DumpUnlock? && x.attempts == MAX_ATTEMPTS
                    && forall at :: 0 <= at < |s.list| ==>
                         && s.list[at] < |s.tasks|
                         && var k := s.tasks[s.list[at]]; k.state == Dumped || Busy(k.state)))
            && (forall i :: 0 <= i < |s.tasks| && s.tasks[i].state == Dumped && s.tasks[i].claimer == d ==>
                  s.tasks[i].released == 1 && s.tasks[i].disposed == 1)
  {
    hide Inv;
    RunKeepsInv(run, dumpers, n);
    RunKeepsScans(run, dumpers, n);
    hide IsRun;
    var s := run[n];
    assert ScanOk(s, s.dumpers[d]);
    AttemptsAreCounted(s, d);
    forall i | 0 <= i < |s.tasks| && s.tasks[i].state == Dumped && s.tasks[i].claimer == d
      ensures s.tasks[i].released == 1 && s.tasks[i].disposed == 1
    {
      ClaimIsDone(s, d, i);
    }
  }

  lemma AttemptsAreCounted(s: State, d: nat)
    requires Inv(s) && d < |s.dumpers|
    ensures s.dumpers[d].DumpUnlock? ==> s.dumpers[d].attempts <= MAX_ATTEMPTS
  {
    assert DumperOk(s, d);
    hide TaskOk;
  }

  lemma ClaimIsDone(s: State, d: nat, i: nat)
    requires Inv(s) && d < |s.dumpers| && Held(s.dumpers[d]).None?
    requires i < |s.tasks| && s.tasks[i].state == Dumped && s.tasks[i].claimer == d
    ensures s.tasks[i].released == 1 && s.tasks[i].disposed == 1
  {
    assert TaskOk(s, i);
    hide DumperOk;
  }
}
