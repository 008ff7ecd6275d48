/**
 A flush whose rotation is refused, as a run from the start: two buffers with two slots each, and two
 threads.  All items are zero.
 */
module BatcherRingRefused {
  import opened Prelude
  import opened BatcherRing
  import opened BatcherRingInvariant
  import opened BatcherRingTheorems
  import opened BatcherRingFlush
  import opened BatcherRingAlone

  const ITEMS: seq<seq<Value>> := [[0, 0], [0, 0]]

  /** What a state of this run looks like: the fields of the ring, the numbers of freed generations, of
      generations and of calls, and where the two threads are. */
  datatype View = View(
    index: seq<nat>, adding: seq<int>, sealed: seq<bool>, active: nat, drain: nat, flushing: bool,
    freed: nat, gens: nat, calls: nat, stray: Thread, worker: Thread)

  predicate Looks(s: State, v: View) {
    && s.mem.count == 2 && s.mem.cap == 2 && s.mem.items == ITEMS
    && s.mem.index == v.index && s.mem.adding == v.adding && s.mem.sealed == v.sealed
    && s.mem.active == v.active && s.mem.drain == v.drain && s.mem.flushing == v.flushing
    && s.hist.freed == v.freed && |s.hist.log| == v.gens && |s.hist.args| == v.calls
    && (forall c :: 0 <= c < |s.hist.args| ==> s.hist.args[c] == 0)
    && s.threads == [v.stray, v.worker]
  }

  function Last(run: seq<State>): State
    requires run != []
  {
    run[|run| - 1]
  }

  /** A run that ends in a state that looks like `v`. */
  ghost predicate Is(run: seq<State>, v: View) {
    IsRun(run, 2, 2, ITEMS, 2) && Looks(Last(run), v)
  }

  /** The run with one more step. */
  lemma Extend(run: seq<State>, t: nat, ch: Choice) returns (r: seq<State>)
    requires IsRun(run, 2, 2, ITEMS, 2) && t < |Last(run).threads|
    ensures CanStep(Last(run), t) && r == run + [Step(Last(run), t, ch)] && IsRun(r, 2, 2, ITEMS, 2)
  {
    hide Inv, Step, WellFormed, LocalsOk;
    var s := Last(run);
    RunKeepsInv(run, 2, 2, ITEMS, 2, |run| - 1);
    StepKeepsInv(s, t, ch);
    r := run + [Step(s, t, ch)];
    assert Next(s, Step(s, t, ch));
    forall i | 0 <= i < |r| - 1 ensures Next(r[i], r[i + 1]) {
      if i < |run| - 1 {
        assert Next(run[i], run[i + 1]);
      }
    }
  }

  lemma ZerosStay(a: nat, i: nat)
    requires a < 2 && i < 2
    ensures ITEMS[a := ITEMS[a][i := 0]] == ITEMS
  {
    assert ITEMS[a][i := 0] == ITEMS[a];
  }

  lemma Begin() returns (r: seq<State>)
    ensures Is(r, View([0, 0], [0, 0], [false, false], 0, 0, false, 0, 1, 0, Idle, Idle))
  {
    r := [InitState(2, 2, ITEMS, 2)];
  }

  /** Thread 0 calls and finds buffer 0 active; thread 1 calls too and enters the buffer. */
  lemma StrayCalls(run: seq<State>) returns (r: seq<State>)
    requires Is(run, View([0, 0], [0, 0], [false, false], 0, 0, false, 0, 1, 0, Idle, Idle))
    ensures Is(r, View([0, 0], [1, 0], [false, false], 0, 0, false, 0, 1, 2, IncAdding(0, 0), Recheck(1, 0)))
  {
    hide Inv, IsRun, FlushStep, RotateStep;
    r := run;
    r := Extend(r, 0, Enqueue(0));
    assert Looks(Last(r), View([0, 0], [0, 0], [false, false], 0, 0, false, 0, 1, 1, LoadActive(0), Idle));
    r := Extend(r, 0, Enqueue(0));
    assert Looks(Last(r), View([0, 0], [0, 0], [false, false], 0, 0, false, 0, 1, 1, LoadSealed(0, 0), Idle));
    r := Extend(r, 0, Enqueue(0));
    assert Looks(Last(r), View([0, 0], [0, 0], [false, false], 0, 0, false, 0, 1, 1, IncAdding(0, 0), Idle));
    r := Extend(r, 1, Enqueue(0));
    assert Looks(Last(r), View([0, 0], [0, 0], [false, false], 0, 0, false, 0, 1, 2, IncAdding(0, 0), LoadActive(1)));
    r := Extend(r, 1, Enqueue(0));
    assert Looks(Last(r), View([0, 0], [0, 0], [false, false], 0, 0, false, 0, 1, 2, IncAdding(0, 0),
        LoadSealed(1, 0)));
    r := Extend(r, 1, Enqueue(0));
    assert Looks(Last(r), View([0, 0], [0, 0], [false, false], 0, 0, false, 0, 1, 2, IncAdding(0, 0), IncAdding(1, 0)));
    r := Extend(r, 1, Enqueue(0));
    assert Looks(Last(r), View([0, 0], [1, 0], [false, false], 0, 0, false, 0, 1, 2, IncAdding(0, 0), Recheck(1, 0)));
  }

  /** The item of thread 1 is accepted. */
  lemma FirstIsAccepted(run: seq<State>) returns (r: seq<State>)
    requires Is(run, View([0, 0], [1, 0], [false, false], 0, 0, false, 0, 1, 2, IncAdding(0, 0), Recheck(1, 0)))
    ensures Is(r, View([1, 0], [0, 0], [false, false], 0, 0, false, 0, 1, 2, IncAdding(0, 0), Idle))
  {
    hide Inv, IsRun, FlushStep, RotateStep, IdleStep;
    r := run;
    r := Extend(r, 1, Enqueue(0));
    assert Looks(Last(r), View([0, 0], [1, 0], [false, false], 0, 0, false, 0, 1, 2, IncAdding(0, 0),
        RecheckSealed(1, 0, 0)));
    r := Extend(r, 1, Enqueue(0));
    assert Looks(Last(r), View([0, 0], [1, 0], [false, false], 0, 0, false, 0, 1, 2, IncAdding(0, 0),
        TakeSlot(1, 0, 0)));
    r := Extend(r, 1, Enqueue(0));
    assert Looks(Last(r), View([1, 0], [1, 0], [false, false], 0, 0, false, 0, 1, 2, IncAdding(0, 0),
        WriteSlot(1, 0, 0, 0)));
    ZerosStay(0, 0);
    r := Extend(r, 1, Enqueue(0));
    assert Looks(Last(r), View([1, 0], [1, 0], [false, false], 0, 0, false, 0, 1, 2, IncAdding(0, 0), Leave(1, 0, 0)));
    r := Extend(r, 1, Enqueue(0));
    assert Looks(Last(r), View([1, 0], [0, 0], [false, false], 0, 0, false, 0, 1, 2, IncAdding(0, 0), Idle));
  }

  /** Thread 1 flushes: it rotates the ring ... */
  lemma FlushRotates(run: seq<State>) returns (r: seq<State>)
    requires Is(run, View([1, 0], [0, 0], [false, false], 0, 0, false, 0, 1, 2, IncAdding(0, 0), Idle))
    ensures Is(r, View([1, 0], [0, 0], [false, false], 0, 0, true, 0, 1, 2, IncAdding(0, 0),
            Rotate(CheckAdding, 0, 0, InFlush(0))))
  {
    hide Inv, IsRun, EnqueueStep;
    r := run;
    r := Extend(r, 1, Flush);
    assert Looks(Last(r), View([1, 0], [0, 0], [false, false], 0, 0, true, 0, 1, 2, IncAdding(0, 0), FlushStart));
    r := Extend(r, 1, Flush);
    assert Looks(Last(r), View([1, 0], [0, 0], [false, false], 0, 0, true, 0, 1, 2, IncAdding(0, 0),
        FlushLoadDrain(0)));
    r := Extend(r, 1, Flush);
    assert Looks(Last(r), View([1, 0], [0, 0], [false, false], 0, 0, true, 0, 1, 2, IncAdding(0, 0),
        FlushLoadSealed(0, 0)));
    r := Extend(r, 1, Flush);
    assert Looks(Last(r), View([1, 0], [0, 0], [false, false], 0, 0, true, 0, 1, 2, IncAdding(0, 0),
        FlushLoadActive(0, 0)));
    r := Extend(r, 1, Flush);
    assert Looks(Last(r), View([1, 0], [0, 0], [false, false], 0, 0, true, 0, 1, 2, IncAdding(0, 0),
        FlushLoadIndex(0, 0, 0)));
    r := Extend(r, 1, Flush);
    assert Looks(Last(r), View([1, 0], [0, 0], [false, false], 0, 0, true, 0, 1, 2, IncAdding(0, 0),
        Rotate(CheckSealed, 0, 0, InFlush(0))));
    r := Extend(r, 1, Flush);
    assert Looks(Last(r), View([1, 0], [0, 0], [false, false], 0, 0, true, 0, 1, 2, IncAdding(0, 0),
        Rotate(CheckIndex, 0, 0, InFlush(0))));
    r := Extend(r, 1, Flush);
    assert Looks(Last(r), View([1, 0], [0, 0], [false, false], 0, 0, true, 0, 1, 2, IncAdding(0, 0),
        Rotate(CheckAdding, 0, 0, InFlush(0))));
  }

  /** ... closes the buffer ... */
  lemma FlushCloses(run: seq<State>) returns (r: seq<State>)
    requires Is(run, View([1, 0], [0, 0], [false, false], 0, 0, true, 0, 1, 2, IncAdding(0, 0),
             Rotate(CheckAdding, 0, 0, InFlush(0))))
    ensures Is(r, View([0, 0], [0, 0], [true, false], 1, 0, true, 0, 2, 2, IncAdding(0, 0), FlushCopy(0, 0, 1, [])))
  {
    hide Inv, IsRun, EnqueueStep, IdleStep;
    r := run;
    r := Extend(r, 1, Flush);
    assert Looks(Last(r), View([1, 0], [0, 0], [false, false], 0, 0, true, 0, 1, 2, IncAdding(0, 0),
        Rotate(Seal, 0, 0, InFlush(0))));
    r := Extend(r, 1, Flush);
    assert Looks(Last(r), View([1, 0], [0, 0], [true, false], 0, 0, true, 0, 1, 2, IncAdding(0, 0),
        Rotate(Swap, 0, 0, InFlush(0))));
    r := Extend(r, 1, Flush);
    assert Looks(Last(r), View([1, 0], [0, 0], [true, false], 1, 0, true, 0, 2, 2, IncAdding(0, 0), FlushWait(0, 0)));
    r := Extend(r, 1, Flush);
    assert Looks(Last(r), View([1, 0], [0, 0], [true, false], 1, 0, true, 0, 2, 2, IncAdding(0, 0), FlushTake(0, 0)));
    r := Extend(r, 1, Flush);
    assert Looks(Last(r), View([0, 0], [0, 0], [true, false], 1, 0, true, 0, 2, 2, IncAdding(0, 0),
        FlushCopy(0, 0, 1, [])));
  }

  /** ... emits the item ... */
  lemma FlushEmits(run: seq<State>) returns (r: seq<State>)
    requires Is(run, View([0, 0], [0, 0], [true, false], 1, 0, true, 0, 2, 2, IncAdding(0, 0), FlushCopy(0, 0, 1, [])))
    ensures Is(r, View([0, 0], [0, 0], [false, false], 1, 1, true, 1, 2, 2, IncAdding(0, 0), FlushLoadDrain(0)))
  {
    hide Inv, IsRun, EnqueueStep, IdleStep, RotateStep;
    r := run;
    assert [] + [ITEMS[0][0]] == [0];
    r := Extend(r, 1, Flush);
    assert Looks(Last(r), View([0, 0], [0, 0], [true, false], 1, 0, true, 0, 2, 2, IncAdding(0, 0),
        FlushCopy(0, 0, 1, [0])));
    r := Extend(r, 1, Flush);
    assert Looks(Last(r), View([0, 0], [0, 0], [true, false], 1, 0, true, 0, 2, 2, IncAdding(0, 0), FlushUnseal(0, 0)));
    r := Extend(r, 1, Flush);
    assert Looks(Last(r), View([0, 0], [0, 0], [false, false], 1, 0, true, 1, 2, 2, IncAdding(0, 0),
        FlushAdvance(0, 0)));
    r := Extend(r, 1, Flush);
    assert Looks(Last(r), View([0, 0], [0, 0], [false, false], 1, 1, true, 1, 2, 2, IncAdding(0, 0),
        FlushLoadDrain(0)));
  }

  /** ... and finds nothing more. */
  lemma FlushReturns(run: seq<State>) returns (r: seq<State>)
    requires Is(run, View([0, 0], [0, 0], [false, false], 1, 1, true, 1, 2, 2, IncAdding(0, 0), FlushLoadDrain(0)))
    ensures Is(r, View([0, 0], [0, 0], [false, false], 1, 1, false, 1, 2, 2, IncAdding(0, 0), Idle))
  {
    hide Inv, IsRun, EnqueueStep, IdleStep, RotateStep;
    r := run;
    r := Extend(r, 1, Flush);
    assert Looks(Last(r), View([0, 0], [0, 0], [false, false], 1, 1, true, 1, 2, 2, IncAdding(0, 0),
        FlushLoadSealed(0, 1)));
    r := Extend(r, 1, Flush);
    assert Looks(Last(r), View([0, 0], [0, 0], [false, false], 1, 1, true, 1, 2, 2, IncAdding(0, 0),
        FlushLoadActive(0, 1)));
    r := Extend(r, 1, Flush);
    assert Looks(Last(r), View([0, 0], [0, 0], [false, false], 1, 1, true, 1, 2, 2, IncAdding(0, 0),
        FlushLoadIndex(0, 1, 1)));
    r := Extend(r, 1, Flush);
    assert Looks(Last(r), View([0, 0], [0, 0], [false, false], 1, 1, true, 1, 2, 2, IncAdding(0, 0), FlushEnd));
    r := Extend(r, 1, Flush);
    assert Looks(Last(r), View([0, 0], [0, 0], [false, false], 1, 1, false, 1, 2, 2, IncAdding(0, 0), Idle));
  }

  /** Thread 0 counts itself in buffer 0, which is not active any more, and thread 1 calls again. */
  lemma StrayCounts(run: seq<State>) returns (r: seq<State>)
    requires Is(run, View([0, 0], [0, 0], [false, false], 1, 1, false, 1, 2, 2, IncAdding(0, 0), Idle))
    ensures Is(r, View([0, 0], [1, 1], [false, false], 1, 1, false, 1, 2, 3, Recheck(0, 0), Recheck(2, 1)))
  {
    hide Inv, IsRun, FlushStep, RotateStep;
    r := run;
    r := Extend(r, 0, Flush);
    assert Looks(Last(r), View([0, 0], [1, 0], [false, false], 1, 1, false, 1, 2, 2, Recheck(0, 0), Idle));
    r := Extend(r, 1, Enqueue(0));
    assert Looks(Last(r), View([0, 0], [1, 0], [false, false], 1, 1, false, 1, 2, 3, Recheck(0, 0), LoadActive(2)));
    r := Extend(r, 1, Enqueue(0));
    assert Looks(Last(r), View([0, 0], [1, 0], [false, false], 1, 1, false, 1, 2, 3, Recheck(0, 0), LoadSealed(2, 1)));
    r := Extend(r, 1, Enqueue(0));
    assert Looks(Last(r), View([0, 0], [1, 0], [false, false], 1, 1, false, 1, 2, 3, Recheck(0, 0), IncAdding(2, 1)));
    r := Extend(r, 1, Enqueue(0));
    assert Looks(Last(r), View([0, 0], [1, 1], [false, false], 1, 1, false, 1, 2, 3, Recheck(0, 0), Recheck(2, 1)));
  }

  /** Another item of thread 1 is accepted. */
  lemma SecondIsAccepted(run: seq<State>) returns (r: seq<State>)
    requires Is(run, View([0, 0], [1, 1], [false, false], 1, 1, false, 1, 2, 3, Recheck(0, 0), Recheck(2, 1)))
    ensures Is(r, View([0, 1], [1, 0], [false, false], 1, 1, false, 1, 2, 3, Recheck(0, 0), Idle))
  {
    hide Inv, IsRun, FlushStep, RotateStep, IdleStep;
    r := run;
    r := Extend(r, 1, Enqueue(0));
    assert Looks(Last(r), View([0, 0], [1, 1], [false, false], 1, 1, false, 1, 2, 3, Recheck(0, 0),
        RecheckSealed(2, 1, 1)));
    r := Extend(r, 1, Enqueue(0));
    assert Looks(Last(r), View([0, 0], [1, 1], [false, false], 1, 1, false, 1, 2, 3, Recheck(0, 0), TakeSlot(2, 1, 1)));
    r := Extend(r, 1, Enqueue(0));
    assert Looks(Last(r), View([0, 1], [1, 1], [false, false], 1, 1, false, 1, 2, 3, Recheck(0, 0),
        WriteSlot(2, 1, 1, 0)));
    ZerosStay(1, 0);
    r := Extend(r, 1, Enqueue(0));
    assert Looks(Last(r), View([0, 1], [1, 1], [false, false], 1, 1, false, 1, 2, 3, Recheck(0, 0), Leave(2, 1, 1)));
    r := Extend(r, 1, Enqueue(0));
    assert Looks(Last(r), View([0, 1], [1, 0], [false, false], 1, 1, false, 1, 2, 3, Recheck(0, 0), Idle));
  }

  /** Thread 1 is in the flush that it began at state `i`. */
  ghost predicate Underway(run: seq<State>, i: nat) {
    && i + 1 < |run|
    && (forall k :: i <= k < |run| ==> 1 < |run[k].threads| && run[k].hist.flusher == Some(1))
    && run[i].threads[1].FlushStart? && !run[i + 1].threads[1].FlushStart?
    && (forall k :: i < k < |run| ==> !run[k].threads[1].FlushEnd?)
  }

  lemma GetsUnderway(run: seq<State>, i: nat)
    requires |run| == i + 2 && 1 < |run[i].threads| && 1 < |run[i + 1].threads|
    requires run[i].hist.flusher == run[i + 1].hist.flusher == Some(1)
    requires run[i].threads[1].FlushStart? && run[i + 1].threads[1].FlushLoadDrain?
    ensures Underway(run, i)
  {
  }

  /** The run with one more step of the flush, if that is not its end. */
  lemma ExtendFlush(run: seq<State>, i: nat) returns (r: seq<State>)
    requires IsRun(run, 2, 2, ITEMS, 2) && Underway(run, i) && IsFlusher(Last(run).threads[1])
    ensures |r| == |run| + 1 && i < |run| && r[i] == run[i] && IsRun(r, 2, 2, ITEMS, 2)
    ensures CanStep(Last(run), 1) && Last(r) == Step(Last(run), 1, Flush)
    ensures 1 < |Last(r).threads| && !Last(r).threads[1].FlushEnd? ==> Underway(r, i)
  {
    hide Inv, IsRun, WellFormed, LocalsOk, Step;
    r := Extend(run, 1, Flush);
    FlusherStays(Last(run));
    assert forall k :: 0 <= k < |run| ==> r[k] == run[k];
  }

  lemma FlusherStays(s: State)
    requires CanStep(s, 1) && IsFlusher(s.threads[1]) && !s.threads[1].FlushEnd?
    ensures Step(s, 1, Flush).hist.flusher == s.hist.flusher
  {
    hide EnqueueStep, IdleStep;
  }

  /** Thread 1 flushes again ... */
  lemma FlushBeginsAgain(run: seq<State>, i: nat) returns (r: seq<State>)
    requires Is(run, View([0, 1], [1, 0], [false, false], 1, 1, false, 1, 2, 3, Recheck(0, 0), Idle)) && i == |run|
    ensures Is(r, View([0, 1], [1, 0], [false, false], 1, 1, true, 1, 2, 3, Recheck(0, 0), FlushLoadDrain(1)))
    ensures Underway(r, i) && ActiveGen(r[i].hist) == 1
  {
    hide Inv, IsRun, Underway, EnqueueStep, RotateStep, WellFormed, LocalsOk;
    r := run;
    r := Extend(r, 1, Flush);
    assert Looks(Last(r), View([0, 1], [1, 0], [false, false], 1, 1, true, 1, 2, 3, Recheck(0, 0), FlushStart));
    r := Extend(r, 1, Flush);
    assert Looks(Last(r), View([0, 1], [1, 0], [false, false], 1, 1, true, 1, 2, 3, Recheck(0, 0), FlushLoadDrain(1)));
    GetsUnderway(r, i);
  }

  /** ... finds the item ... */
  lemma FlushFindsItem(run: seq<State>, i: nat) returns (r: seq<State>)
    requires Is(run, View([0, 1], [1, 0], [false, false], 1, 1, true, 1, 2, 3, Recheck(0, 0), FlushLoadDrain(1)))
    requires Underway(run, i)
    ensures Is(r, View([0, 1], [1, 0], [false, false], 1, 1, true, 1, 2, 3, Recheck(0, 0), FlushLoadIndex(1, 1, 1)))
    ensures Underway(r, i) && r[i] == run[i]
  {
    hide Inv, IsRun, EnqueueStep, RotateStep, IdleStep, WellFormed, LocalsOk;
    r := run;
    r := ExtendFlush(r, i);
    assert Looks(Last(r), View([0, 1], [1, 0], [false, false], 1, 1, true, 1, 2, 3, Recheck(0, 0),
        FlushLoadSealed(1, 1)));
    r := ExtendFlush(r, i);
    assert Looks(Last(r), View([0, 1], [1, 0], [false, false], 1, 1, true, 1, 2, 3, Recheck(0, 0),
        FlushLoadActive(1, 1)));
    r := ExtendFlush(r, i);
    assert Looks(Last(r), View([0, 1], [1, 0], [false, false], 1, 1, true, 1, 2, 3, Recheck(0, 0),
        FlushLoadIndex(1, 1, 1)));
  }

  /** ... and the next buffer is buffer 0, in which thread 0 is counted: the rotation is refused. */
  lemma RotationIsRefused(run: seq<State>, i: nat) returns (r: seq<State>)
    requires Is(run, View([0, 1], [1, 0], [false, false], 1, 1, true, 1, 2, 3, Recheck(0, 0), FlushLoadIndex(1, 1, 1)))
    requires Underway(run, i)
    ensures Is(r, View([0, 1], [1, 0], [false, false], 1, 1, true, 1, 2, 3, Recheck(0, 0),
            Rotate(Retest, 1, 1, InFlush(1))))
    ensures Underway(r, i) && r[i] == run[i]
  {
    hide Inv, IsRun, EnqueueStep, IdleStep, WellFormed, LocalsOk;
    r := run;
    r := ExtendFlush(r, i);
    assert Looks(Last(r), View([0, 1], [1, 0], [false, false], 1, 1, true, 1, 2, 3, Recheck(0, 0),
        Rotate(CheckSealed, 1, 1, InFlush(1))));
    r := ExtendFlush(r, i);
    assert Looks(Last(r), View([0, 1], [1, 0], [false, false], 1, 1, true, 1, 2, 3, Recheck(0, 0),
        Rotate(CheckIndex, 1, 1, InFlush(1))));
    r := ExtendFlush(r, i);
    assert Looks(Last(r), View([0, 1], [1, 0], [false, false], 1, 1, true, 1, 2, 3, Recheck(0, 0),
        Rotate(CheckAdding, 1, 1, InFlush(1))));
    r := ExtendFlush(r, i);
    assert Looks(Last(r), View([0, 1], [1, 0], [false, false], 1, 1, true, 1, 2, 3, Recheck(0, 0),
        Rotate(Retest, 1, 1, InFlush(1))));
  }

  /** So the flush ends without the item. */
  lemma Ends(run: seq<State>, i: nat) returns (r: seq<State>)
    requires Is(run, View([0, 1], [1, 0], [false, false], 1, 1, true, 1, 2, 3, Recheck(0, 0),
             Rotate(Retest, 1, 1, InFlush(1))))
    requires Underway(run, i) && ActiveGen(run[i].hist) == 1
    ensures IsRun(r, 2, 2, ITEMS, 2) && |r| == |run| + 1
    ensures IsFlush(r, 1, i, |run|) && Refused(r[|run| - 1], 1)
    ensures r[|run|].hist.freed == 1 == ActiveGen(r[i].hist)
  {
    hide Inv, IsRun;
    r := Extend(run, 1, Flush);
    assert Looks(Last(r), View([0, 1], [1, 0], [false, false], 1, 1, true, 1, 2, 3, Recheck(0, 0), FlushEnd))
        && Last(r).hist.flusher == Some(1);
    assert forall k :: 0 <= k < |run| ==> r[k] == run[k];
  }

  /** Some flush of some run leaves an accepted item in the ring: its rotation is refused. */
  lemma RefusalHappens() returns (run: seq<State>, i: nat, j: nat)
    ensures IsRun(run, 2, 2, ITEMS, 2) && IsFlush(run, 1, i, j)
    ensures Refused(run[j - 1], 1) && run[j].hist.freed == ActiveGen(run[i].hist)
    ensures var g := ActiveGen(run[i].hist); g < |run[j].hist.log| && run[j].hist.log[g] != []
  {
    hide IsRun, Looks, Refused;
    var r := Begin();
    r := StrayCalls(r);
    r := FirstIsAccepted(r);
    r := FlushRotates(r);
    r := FlushCloses(r);
    r := FlushEmits(r);
    r := FlushReturns(r);
    r := StrayCounts(r);
    r := SecondIsAccepted(r);
    i := |r|;
    r := FlushBeginsAgain(r, i);
    r := FlushFindsItem(r, i);
    r := RotationIsRefused(r, i);
    run := Ends(r, i);
    j := |r|;
    FlushDrains(run, 2, 2, ITEMS, 2, 1, i, j);
  }
}
