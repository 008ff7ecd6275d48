/**
 What a call does that nobody interferes with: a flush comes to its end and leaves nothing in the
 ring, and an enqueue comes to its end and returns true exactly if there is room.
 */
module BatcherRingAlone {
  import opened Prelude
  import opened BatcherRing
  import opened BatcherRingInvariant
  import opened BatcherRingTheorems
  import opened BatcherRingContents
  import opened BatcherRingFlush

  // ------------------------------------------------------------------------------- alone

  /** All threads but `t` are outside. */
  predicate Alone(s: State, t: nat) {
    t < |s.threads| && forall u: nat :: u < |s.threads| && u != t ==> s.threads[u].Idle?
  }

  predicate CanStep(s: State, t: nat) {
    && WellFormed(s.mem, s.hist) && t < |s.threads|
    && LocalsOk(s.mem.count, s.mem.cap, |s.hist.args|, |s.hist.log|, s.threads[t])
  }

  /** The state after a step of `t`, which does `ch` if it is idle. */
  function After(s: State, t: nat, ch: Choice): State {
    if CanStep(s, t) then Step(s, t, ch) else s
  }

  /** The states that `t` goes through when it takes all the steps. */
  ghost predicate IsSolo(path: seq<State>, t: nat, ch: Choice) {
    |path| > 0 && forall k :: 0 <= k < |path| - 1 ==> CanStep(path[k], t) && path[k + 1] == After(path[k], t, ch)
  }

  lemma SoloPrepend(s: State, path: seq<State>, t: nat, ch: Choice)
    requires IsSolo(path, t, ch) && CanStep(s, t) && path[0] == After(s, t, ch)
    ensures IsSolo([s] + path, t, ch)
  {
    hide After, CanStep;
    var all := [s] + path;
    forall k | 0 <= k < |all| - 1 ensures CanStep(all[k], t) && all[k + 1] == After(all[k], t, ch) {
      if k > 0 {
        assert all[k] == path[k - 1] && all[k + 1] == path[k - 1 + 1];
      }
    }
  }

  /** Every step of a lone thread is a step of a run. */
  lemma StepAlone(s: State, t: nat, ch: Choice)
    requires Inv(s) && Alone(s, t)
    ensures CanStep(s, t) && Inv(After(s, t, ch)) && Alone(After(s, t, ch), t)
  {
    hide Inv, Step;
    StepKeepsInv(s, t, ch);
    SameThreads(s, t, ch);
    forall u: nat | u < |s.threads| && u != t
      ensures u < |After(s, t, ch).threads| && After(s, t, ch).threads[u].Idle?
    {
      OnlyItself(s, t, ch, u);
    }
  }

  lemma SameThreads(s: State, t: nat, ch: Choice)
    requires CanStep(s, t)
    ensures |After(s, t, ch).threads| == |s.threads|
  {
  }

  /** With nobody else inside, no buffer has a producer counted but for `t` itself. */
  lemma NobodyElseCounted(s: State, t: nat, a: nat)
    requires Inv(s) && Alone(s, t) && a < s.mem.count
    ensures s.mem.adding[a] == if Holds(s.threads[t], a) then 1 else 0
  {
    hide RingOk, RecordsOk, ThreadsOk, UnwrittenOk, WindowOk;
    assert Holders(s.threads, a) == if Holds(s.threads[t], a) then {t} else {};
  }

  lemma ActiveIsOpen(s: State, t: nat)
    requires Inv(s) && Alone(s, t) && !(s.threads[t].Rotate? && s.threads[t].pc.Swap?)
    ensures !s.mem.sealed[s.mem.active]
  {
    hide RingOk, RecordsOk, ThreadsOk, UnwrittenOk, AddingOk;
  }

  // ------------------------------------------------------------------------------- flush

  /** What the flusher knows when nobody interferes. */
  predicate SoloFlush(m: Memory, h: History, th: Thread) {
    && m.active < |m.index|
    && match th
       case FlushStart => true
       case FlushLoadDrain(fi) => Mine(m, fi)
       case FlushLoadSealed(fi, _) => Mine(m, fi)
       case FlushLoadActive(fi, _) => Mine(m, fi)
       case FlushLoadIndex(fi, _, act) => Mine(m, fi) && act == m.active
       case Rotate(pc, _, _, InFlush(fi)) =>
         !pc.Retest? && ActiveGen(h) == h.freed && m.active == fi && m.index[m.active] > 0
       case FlushWait(fi, _) => Mine(m, fi)
       case FlushTake(fi, _) => Mine(m, fi)
       case FlushCopy(fi, _, _, _) => Mine(m, fi)
       case FlushUnseal(fi, _) => Mine(m, fi)
       case FlushAdvance(fi, _) => Mine(m, fi)
       case FlushEnd => ActiveGen(h) == h.freed && m.index[m.active] == 0
       case _ => false
  }

  /** The active buffer has items only if it is the one that was active at the start. */
  predicate Mine(m: Memory, fi: nat)
    requires m.active < |m.index|
  {
    m.index[m.active] == 0 || m.active == fi
  }

  /** Buffers that are still to be drained. */
  function Pending(m: Memory, h: History): int
    requires m.active < |m.index|
  {
    ActiveGen(h) - h.freed + if m.index[m.active] > 0 then 1 else 0
  }

  function FlushRank(th: Thread): nat {
    match th
    case FlushStart => 20
    case FlushAdvance(_, _) => 20
    case FlushLoadDrain(_) => 19
    case FlushLoadSealed(_, _) => 18
    case FlushLoadActive(_, _) => 17
    case FlushLoadIndex(_, _, _) => 16
    case Rotate(pc, _, _, _) => RotateRank(pc) + 9
    case FlushWait(_, _) => 9
    case FlushTake(_, _) => 8
    case FlushCopy(_, _, _, _) => 7
    case FlushUnseal(_, _) => 6
    case FlushEnd => 1
    case _ => 0
  }

  function RotateRank(pc: RotatePc): nat {
    match pc
    case CheckSealed => 6
    case CheckIndex => 5
    case CheckAdding => 4
    case Seal => 3
    case Swap => 2
    case Retest => 1
  }

  function CopiesLeft(th: Thread): int {
    if th.FlushCopy? then th.n - |th.batch| else 0
  }

  /** The state of a lone flush. */
  ghost predicate Flushes(s: State, t: nat) {
    Inv(s) && Alone(s, t) && IsFlusher(s.threads[t]) && SoloFlush(s.mem, s.hist, s.threads[t])
  }

  predicate Lower(m: Memory, h: History, th: Thread, m': Memory, h': History, th': Thread)
    requires m.active < |m.index| && m'.active < |m'.index|
  {
    var p, p', r, r' := Pending(m, h), Pending(m', h'), FlushRank(th), FlushRank(th');
    || 0 <= p' < p
    || (p' == p && r' < r)
    || (p' == p && r' == r && 0 <= CopiesLeft(th') < CopiesLeft(th))
  }

  /** A step leads on with a flush that is closer to its end. */
  ghost predicate Advances(s: State, t: nat) {
    var s' := After(s, t, Flush);
    && t < |s.threads| == |s'.threads|
    && IsFlusher(s'.threads[t]) && SoloFlush(s'.mem, s'.hist, s'.threads[t])
    && s.mem.active < |s.mem.index|
    && Lower(s.mem, s.hist, s.threads[t], s'.mem, s'.hist, s'.threads[t])
  }

  /** The facts about the ring that a lone flush needs. */
  lemma OldestOrActive(s: State, t: nat)
    requires Flushes(s, t)
    ensures CanStep(s, t) && ThreadOk(s.mem, s.hist, s.threads[t], t)
    ensures s.hist.freed <= ActiveGen(s.hist) && IsSlot(s.hist.slots, ActiveGen(s.hist), s.mem.active)
    ensures s.hist.freed < |s.hist.slots|
    ensures s.hist.slots[s.hist.freed] == s.mem.active <==> s.hist.freed == ActiveGen(s.hist)
  {
    hide RecordsOk, AddingOk, UnwrittenOk, WindowOk, SealedBelow, ClearAbove;
    assert ThreadOk(s.mem, s.hist, s.threads[t], t);
  }

  lemma SoloStarts(s: State, t: nat)
    requires Flushes(s, t) && (s.threads[t].FlushStart? || s.threads[t].FlushLoadDrain?)
    ensures Advances(s, t)
  {
    hide EnqueueStep, RotateStep, IdleStep;
    OldestOrActive(s, t);
    hide Inv, ThreadOk;
  }

  lemma SoloLoads(s: State, t: nat)
    requires Flushes(s, t) && (s.threads[t].FlushLoadSealed? || s.threads[t].FlushLoadActive?)
    ensures Advances(s, t)
  {
    hide EnqueueStep, RotateStep, IdleStep;
    OldestOrActive(s, t);
    hide Inv, ThreadOk;
  }

  lemma SoloLoadIndex(s: State, t: nat)
    requires Flushes(s, t) && s.threads[t].FlushLoadIndex?
    ensures Advances(s, t)
  {
    OldestOrActive(s, t);
    hide Inv, WorkOk, Inside, RotateOk;
  }

  lemma SoloRotate(s: State, t: nat)
    requires Flushes(s, t) && s.threads[t].Rotate?
    ensures Advances(s, t)
  {
    hide RecordsOk, AddingOk, UnwrittenOk, WindowOk, ThreadsOk, WorkOk, Inside;
    OldestOrActive(s, t);
    NextIsClear(s.mem, s.hist);
    NobodyElseCounted(s, t, NextIdx(s.mem.count, s.mem.active));
    hide RingOk;
  }

  lemma SoloWait(s: State, t: nat)
    requires Flushes(s, t) && (s.threads[t].FlushWait? || s.threads[t].FlushAdvance?)
    ensures Advances(s, t)
  {
    hide EnqueueStep, RotateStep, IdleStep, RingOk, RecordsOk, AddingOk, UnwrittenOk, WindowOk, ThreadsOk, WorkOk,
        Inside;
    OldestOrActive(s, t);
    if s.threads[t].FlushWait? {
      NobodyElseCounted(s, t, s.threads[t].d);
    }
  }

  lemma SoloDrain(s: State, t: nat)
    requires Flushes(s, t) && InDrain(s.threads[t])
    ensures Advances(s, t)
  {
    hide EnqueueStep, RotateStep, IdleStep, RecordsOk, AddingOk, UnwrittenOk, WindowOk, ThreadsOk, WorkOk, Inside,
         Complete, DrainOk, SlotsOk, SealedBelow, ClearAbove;
    OldestOrActive(s, t);
    assert s.hist.freed < ActiveGen(s.hist) && s.threads[t].d != s.mem.active;
    hide Inv;
  }

  lemma SoloFlushStep(s: State, t: nat)
    requires Flushes(s, t) && !s.threads[t].FlushEnd?
    ensures CanStep(s, t) && Flushes(After(s, t, Flush), t) && Advances(s, t)
  {
    hide Inv, Advances, Alone, After;
    StepAlone(s, t, Flush);
    var th := s.threads[t];
    if th.Rotate? {
      SoloRotate(s, t);
    } else if th.FlushLoadIndex? {
      SoloLoadIndex(s, t);
    } else if th.FlushWait? || th.FlushAdvance? {
      SoloWait(s, t);
    } else if InDrain(th) {
      SoloDrain(s, t);
    } else if th.FlushStart? || th.FlushLoadDrain? {
      SoloStarts(s, t);
    } else {
      SoloLoads(s, t);
    }
    AdvancesOn(s, t);
  }

  lemma AdvancesOn(s: State, t: nat)
    requires Advances(s, t)
    ensures var s' := After(s, t, Flush);
            t < |s'.threads| && IsFlusher(s'.threads[t]) && SoloFlush(s'.mem, s'.hist, s'.threads[t])
  {
  }

  /** A flush accepts nothing. */
  lemma FlushKeepsQueue(s: State, t: nat)
    requires CanStep(s, t) && IsFlusher(s.threads[t])
    ensures var h' := After(s, t, Flush).hist; h'.args == s.hist.args && Queue(h'.log) == Queue(s.hist.log)
  {
    hide EnqueueStep, IdleStep, LocalsOk;
    var log, log' := s.hist.log, After(s, t, Flush).hist.log;
    assert log' == log || log' == log + [[]];
    if log' == log + [[]] {
      assert log'[..|log|] == log;
      assert Queue(log) + [] == Queue(log);
    }
  }

  /** A lone flush comes to its end. */
  lemma {:induction false} SoloFlushEnds(s: State, t: nat) returns (path: seq<State>)
    requires Flushes(s, t)
    ensures IsSolo(path, t, Flush) && path[0] == s
    ensures var last := path[|path| - 1];
            && Flushes(last, t) && last.threads[t].FlushEnd?
            && last.hist.args == s.hist.args && Queue(last.hist.log) == Queue(s.hist.log)
    decreases Pending(s.mem, s.hist), FlushRank(s.threads[t]), CopiesLeft(s.threads[t])
  {
    hide Inv, After, CanStep, SoloFlush, Queue;
    if s.threads[t].FlushEnd? {
      path := [s];
    } else {
      SoloFlushStep(s, t);
      FlushKeepsQueue(s, t);
      var rest := SoloFlushEnds(After(s, t, Flush), t);
      path := [s] + rest;
      SoloPrepend(s, rest, t, Flush);
    }
  }

  lemma SoloAppend(path: seq<State>, t: nat, ch: Choice)
    requires IsSolo(path, t, ch) && CanStep(path[|path| - 1], t)
    ensures IsSolo(path + [After(path[|path| - 1], t, ch)], t, ch)
  {
    hide CanStep, After;
  }

  /** At the end of a lone flush the ring is empty and all is emitted. */
  lemma EndOfSoloFlush(s: State, t: nat)
    requires Flushes(s, t) && s.threads[t].FlushEnd?
    ensures var s' := After(s, t, Flush);
            && CanStep(s, t) && Inv(s') && t < |s'.threads| && s'.threads[t].Idle?
            && s'.hist.log == s.hist.log && s'.hist.args == s.hist.args
            && Concat(s'.mem.emitted) == ItemsOf(s.hist.args, Queue(s.hist.log))
            && Contents(s') == []
  {
    var m, h := s.mem, s.hist;
    StepAlone(s, t, Flush);
    OldestOrActive(s, t);
    OldestHasItems(s);
    assert h.out == h.freed == ActiveGen(h);
    assert Concat(m.emitted) == StreamOf(h.args, h.log[..h.out]);
    hide Inv, EnqueueStep, RotateStep;
    StreamOfQueue(h.args, h.log[..h.out]);
    assert Queue(h.log) == Queue(h.log[..h.out]) + [];
    assert m.drain == m.active && m.index[m.drain] == 0;
    assert m.items[m.drain][..0] == [];
  }

  /** In every run, when all threads are outside, a flush that then runs alone comes to its end, and
      everything that was accepted is emitted, in order, and nothing is left in the ring. */
  lemma {:induction false} FlushAloneEmitsAll(
    run: seq<State>, count: nat, cap: nat, items: seq<seq<Value>>, threads: nat, i: nat, t: nat)
    returns (path: seq<State>)
    requires IsRun(run, count, cap, items, threads) && i < |run|
    requires Alone(run[i], t) && run[i].threads[t].Idle?
    ensures IsSolo(path, t, Flush) && path[0] == run[i] && |path| > 1
    ensures var h, last := run[i].hist, path[|path| - 1];
            && WellFormed(last.mem, last.hist) && t < |last.threads| && last.threads[t].Idle?
            && Concat(last.mem.emitted) == ItemsOf(h.args, Queue(h.log))
            && Contents(last) == []
  {
    hide Inv, CanStep, Queue;
    RunKeepsInv(run, count, cap, items, threads, i);
    FlusherIsAThread(run, count, cap, items, threads, i);
    hide IsRun;
    var s := run[i];
    StepAlone(s, t, Flush);
    SoloFlushBegins(s, t);
    hide After, Contents;
    var rest := SoloFlushEnds(After(s, t, Flush), t);
    SoloPrepend(s, rest, t, Flush);
    var before := [s] + rest;
    var last := before[|before| - 1];
    EndOfSoloFlush(last, t);
    SoloAppend(before, t, Flush);
    path := before + [After(last, t, Flush)];
    InvIsWellFormed(After(last, t, Flush));
  }

  lemma InvIsWellFormed(s: State)
    requires Inv(s)
    ensures WellFormed(s.mem, s.hist)
  {
  }

  /** With all threads outside the flush lock is free. */
  lemma LockIsFree(s: State, t: nat)
    requires Inv(s) && Alone(s, t) && s.threads[t].Idle?
    requires s.hist.flusher.Some? ==> s.hist.flusher.value < |s.threads|
    ensures !s.mem.flushing
  {
    hide RecordsOk, AddingOk, UnwrittenOk, WindowOk, SlotsOk, SealedBelow, ClearAbove;
    assert s.hist.flusher.Some? ==>
        ThreadOk(s.mem, s.hist, s.threads[s.hist.flusher.value], s.hist.flusher.value);
  }

  lemma SoloFlushBegins(s: State, t: nat)
    requires Inv(s) && Alone(s, t) && s.threads[t].Idle?
    requires s.hist.flusher.Some? ==> s.hist.flusher.value < |s.threads|
    ensures var s' := After(s, t, Flush);
            && Flushes(s', t) && s'.hist.args == s.hist.args && s'.hist.log == s.hist.log
  {
    hide RingOk, RecordsOk, AddingOk, UnwrittenOk, WindowOk, ThreadsOk, EnqueueStep, RotateStep, FlushStep;
    StepAlone(s, t, Flush);
    LockIsFree(s, t);
  }

  // ----------------------------------------------------------------------------- enqueue

  /** There is a free slot in the active buffer, or a free buffer behind it. */
  predicate HasRoom(m: Memory)
    requires m.active < m.count && |m.index| == |m.sealed| == m.count
  {
    m.index[m.active] < m.cap || !m.sealed[NextIdx(m.count, m.active)]
  }

  /** A full buffer is active only while there is no free one behind it. */
  predicate Rotated(m: Memory)
    requires m.active < m.count && |m.index| == |m.sealed| == m.count
  {
    m.index[m.active] < m.cap || m.sealed[NextIdx(m.count, m.active)]
  }

  /** What a producer with call `c` knows when nobody interferes; `ok` is whether there was room. */
  predicate SoloEnqueue(m: Memory, th: Thread, c: nat, ok: bool)
    requires m.active < m.count && |m.index| == |m.sealed| == m.count
  {
    match th
    case LoadActive(d) => d == c && ok == HasRoom(m)
    case LoadSealed(d, a) => d == c && a == m.active && ok == HasRoom(m)
    case IncAdding(d, a) => d == c && a == m.active && ok == HasRoom(m)
    case Recheck(d, a) => d == c && a == m.active && ok == HasRoom(m)
    case RecheckSealed(d, a, _) => d == c && a == m.active && ok == HasRoom(m)
    case TakeSlot(d, a, _) => d == c && a == m.active && ok == HasRoom(m)
    case WriteSlot(d, a, _, i) => d == c && ok && a == m.active && m.index[a] == i + 1
    case Rotate(pc, a, _, AfterWrite(d)) =>
      d == c && ok && a == m.active && if pc.CheckSealed? then true else pc.Retest? == m.sealed[NextIdx(m.count, a)]
    case Leave(d, _, _) => d == c && ok && Rotated(m)
    case Rotate(pc, a, _, AfterFull(d)) =>
      && d == c && a == m.active && m.index[a] >= m.cap
      && ok == !m.sealed[NextIdx(m.count, a)] && (if pc.CheckSealed? then true else ok == !pc.Retest?)
    case LeaveFull(d, a, _, rotated) => d == c && ok == rotated
        && if ok then m.index[m.active] < m.cap else a == m.active
    case FullRetest(d, a) => d == c && !ok && a == m.active
    case Drop(d) => d == c && !ok
    case _ => false
  }

  function EnqueueRank(m: Memory, th: Thread): nat
    requires m.active < |m.index|
  {
    var again := if m.index[m.active] < m.cap then 0 else 30;
    match th
    case LoadActive(_) => 30 + again
    case LoadSealed(_, _) => 29 + again
    case IncAdding(_, _) => 28 + again
    case Recheck(_, _) => 27 + again
    case RecheckSealed(_, _, _) => 26 + again
    case TakeSlot(_, _, _) => 25 + again
    case WriteSlot(_, _, _, _) => 24
    case Rotate(pc, _, _, AfterWrite(_)) => 16 + RotateRank(pc)
    case Leave(_, _, _) => 15
    case Rotate(pc, _, _, AfterFull(_)) => 40 + RotateRank(pc)
    case LeaveFull(_, _, _, _) => 35
    case FullRetest(_, _) => 34
    case Drop(_) => 33
    case _ => 0
  }

  predicate InCall(th: Thread) {
    InEnqueue(th) || (th.Rotate? && !th.ret.InFlush?)
  }

  ghost predicate Enqueues(s: State, t: nat, c: nat, ok: bool) {
    Inv(s) && Alone(s, t) && InCall(s.threads[t]) && SoloEnqueue(s.mem, s.threads[t], c, ok)
  }

  /** A step leads on with an enqueue that is closer to its end and has returned nothing yet. */
  ghost predicate GetsOn(s: State, t: nat, c: nat, ok: bool) {
    var s' := After(s, t, Flush);
    && WellFormed(s.mem, s.hist) && WellFormed(s'.mem, s'.hist) && t < |s.threads| == |s'.threads|
    && InCall(s'.threads[t]) && SoloEnqueue(s'.mem, s'.threads[t], c, ok)
    && EnqueueRank(s'.mem, s'.threads[t]) < EnqueueRank(s.mem, s.threads[t])
    && s'.hist.args == s.hist.args && s'.mem.discards == s.mem.discards
  }

  lemma SoloEnters(s: State, t: nat, c: nat, ok: bool)
    requires Enqueues(s, t, c, ok)
    requires var th := s.threads[t];
             th.LoadActive? || th.LoadSealed? || th.IncAdding? || th.Recheck? || th.RecheckSealed?
    ensures GetsOn(s, t, c, ok)
  {
    hide RingOk, RecordsOk, AddingOk, UnwrittenOk, WindowOk, ThreadsOk, RotateStep, FlushStep, IdleStep, RotateRank;
    StepAlone(s, t, Flush);
    ActiveIsOpen(s, t);
  }

  lemma SoloTakes(s: State, t: nat, c: nat, ok: bool)
    requires Enqueues(s, t, c, ok) && (s.threads[t].TakeSlot? || s.threads[t].WriteSlot?)
    ensures GetsOn(s, t, c, ok)
  {
    hide RingOk, RecordsOk, AddingOk, UnwrittenOk, WindowOk, ThreadsOk, RotateStep, FlushStep, IdleStep;
    StepAlone(s, t, Flush);
  }

  lemma SoloLeavesFull(s: State, t: nat, c: nat, ok: bool)
    requires Enqueues(s, t, c, ok) && (s.threads[t].LeaveFull? || s.threads[t].FullRetest?)
    ensures GetsOn(s, t, c, ok)
  {
    hide RingOk, RecordsOk, AddingOk, UnwrittenOk, WindowOk, ThreadsOk, RotateStep, FlushStep, IdleStep;
    StepAlone(s, t, Flush);
  }

  /** The buffer behind the active one is clear, or sealed if the ring is full. */
  lemma NextIsClearOrSealed(m: Memory, h: History)
    requires WellFormed(m, h) && RingOk(m, h)
    ensures var next := NextIdx(m.count, m.active);
            next != m.active && (m.sealed[next] || m.index[next] == 0)
  {
    var top := ActiveGen(h);
    assert h.slots[top] == m.active;
    if top + 1 < |h.slots| {
      assert h.slots[top + 1] == NextIdx(m.count, m.active) && h.slots[top + 1] != h.slots[top];
      assert IndexAt(m.index, h.slots, top + 1) == 0;
    } else {
      assert h.slots[h.freed] == NextIdx(m.count, m.active) && h.slots[h.freed] != h.slots[top];
      assert SealedAt(m.sealed, h.slots, h.freed);
    }
  }

  lemma SoloRotatesWritten(s: State, t: nat, c: nat, ok: bool)
    requires Enqueues(s, t, c, ok) && s.threads[t].Rotate? && s.threads[t].ret.AfterWrite?
    ensures GetsOn(s, t, c, ok)
  {
    hide RingOk, RecordsOk, AddingOk, UnwrittenOk, WindowOk, ThreadsOk, EnqueueStep, FlushStep, IdleStep;
    StepAlone(s, t, Flush);
    NextIsClearOrSealed(s.mem, s.hist);
    NobodyElseCounted(s, t, NextIdx(s.mem.count, s.mem.active));
    assert s.mem.adding[NextIdx(s.mem.count, s.mem.active)] == 0;
    hide Inv, Holds, LocalsOk;
  }

  lemma SoloRotatesFull(s: State, t: nat, c: nat, ok: bool)
    requires Enqueues(s, t, c, ok) && s.threads[t].Rotate? && s.threads[t].ret.AfterFull?
    ensures GetsOn(s, t, c, ok)
  {
    hide RingOk, RecordsOk, AddingOk, UnwrittenOk, WindowOk, ThreadsOk, EnqueueStep, FlushStep, IdleStep;
    StepAlone(s, t, Flush);
    NextIsClearOrSealed(s.mem, s.hist);
    NobodyElseCounted(s, t, NextIdx(s.mem.count, s.mem.active));
    assert s.mem.adding[NextIdx(s.mem.count, s.mem.active)] == 0;
    hide Inv, Holds, LocalsOk;
  }

  lemma SoloEnqueueStep(s: State, t: nat, c: nat, ok: bool)
    requires Enqueues(s, t, c, ok) && !s.threads[t].Leave? && !s.threads[t].Drop?
    ensures CanStep(s, t) && Enqueues(After(s, t, Flush), t, c, ok) && GetsOn(s, t, c, ok)
  {
    hide Inv, GetsOn, Alone, After;
    StepAlone(s, t, Flush);
    var th := s.threads[t];
    if th.Rotate? {
      if th.ret.AfterFull? { SoloRotatesFull(s, t, c, ok); } else { SoloRotatesWritten(s, t, c, ok); }
    } else if th.TakeSlot? || th.WriteSlot? {
      SoloTakes(s, t, c, ok);
    } else if th.LeaveFull? || th.FullRetest? {
      SoloLeavesFull(s, t, c, ok);
    } else {
      SoloEnters(s, t, c, ok);
    }
    GetsOnToo(s, t, c, ok);
  }

  lemma GetsOnToo(s: State, t: nat, c: nat, ok: bool)
    requires GetsOn(s, t, c, ok)
    ensures var s' := After(s, t, Flush);
            && WellFormed(s'.mem, s'.hist) && t < |s'.threads|
            && InCall(s'.threads[t]) && SoloEnqueue(s'.mem, s'.threads[t], c, ok)
            && s'.hist.args == s.hist.args && s'.mem.discards == s.mem.discards
  {
  }

  /** A lone enqueue comes to its end. */
  lemma {:induction false} SoloEnqueueEnds(s: State, t: nat, c: nat, ok: bool) returns (path: seq<State>)
    requires Enqueues(s, t, c, ok)
    ensures IsSolo(path, t, Flush) && path[0] == s
    ensures var last := path[|path| - 1];
            && Enqueues(last, t, c, ok) && (last.threads[t].Leave? || last.threads[t].Drop?)
            && last.hist.args == s.hist.args && last.mem.discards == s.mem.discards
    decreases EnqueueRank(s.mem, s.threads[t])
  {
    hide Inv, After, CanStep, SoloEnqueue;
    if s.threads[t].Leave? || s.threads[t].Drop? {
      path := [s];
    } else {
      SoloEnqueueStep(s, t, c, ok);
      GetsOnToo(s, t, c, ok);
      var rest := SoloEnqueueEnds(After(s, t, Flush), t, c, ok);
      path := [s] + rest;
      SoloPrepend(s, rest, t, Flush);
    }
  }

  lemma EndOfSoloEnqueue(s: State, t: nat, c: nat, ok: bool)
    requires Enqueues(s, t, c, ok) && (s.threads[t].Leave? || s.threads[t].Drop?)
    ensures var s' := After(s, t, Flush);
            && CanStep(s, t) && Inv(s') && t < |s'.threads| && s'.threads[t].Idle?
            && WellFormed(s'.mem, s'.hist) && (ok ==> Rotated(s'.mem))
            && c < |s'.hist.results| && s'.hist.results[c] == Some(ok) && s'.hist.args == s.hist.args
            && s'.mem.discards == s.mem.discards + if ok then 0 else 1
  {
    hide RingOk, RecordsOk, AddingOk, UnwrittenOk, WindowOk, ThreadsOk, RotateStep, FlushStep, IdleStep;
    StepAlone(s, t, Flush);
  }

  lemma SoloEnqueueBegins(s: State, t: nat, item: Value)
    requires Inv(s) && Alone(s, t) && s.threads[t].Idle?
    ensures var s', c := After(s, t, Enqueue(item)), |s.hist.args|;
            && s.mem.active < s.mem.count && |s.mem.index| == |s.mem.sealed| == s.mem.count
            && Enqueues(s', t, c, HasRoom(s.mem))
            && s'.hist.args == s.hist.args + [item] && s'.mem.discards == s.mem.discards
  {
    hide RingOk, RecordsOk, AddingOk, UnwrittenOk, WindowOk, ThreadsOk, EnqueueStep, RotateStep, FlushStep;
    StepAlone(s, t, Enqueue(item));
  }

  /** In every run, when all threads are outside, an enqueue that then runs alone comes to its end.
      It returns true exactly if there is a free slot in the active buffer or a free buffer behind
      it, and then a buffer that it filled is rotated away if there is a free one; one discard is
      recorded exactly if it returns false. */
  lemma {:induction false} EnqueueAloneIsAccepted(
    run: seq<State>, count: nat, cap: nat, items: seq<seq<Value>>, threads: nat, i: nat, t: nat, item: Value)
    returns (path: seq<State>)
    requires IsRun(run, count, cap, items, threads) && i < |run|
    requires Alone(run[i], t) && run[i].threads[t].Idle?
    ensures WellFormed(run[i].mem, run[i].hist)
    ensures IsSolo(path, t, Flush) && path[0] == After(run[i], t, Enqueue(item))
    ensures var m, c, last := run[i].mem, |run[i].hist.args|, path[|path| - 1];
            && WellFormed(last.mem, last.hist) && t < |last.threads| && last.threads[t].Idle?
            && c < |last.hist.results| && last.hist.results[c] == Some(HasRoom(m))
            && last.hist.args == run[i].hist.args + [item]
            && last.mem.discards == m.discards + (if HasRoom(m) then 0 else 1)
            && (HasRoom(m) ==> Rotated(last.mem))
  {
    hide Inv, CanStep, HasRoom;
    RunKeepsInv(run, count, cap, items, threads, i);
    hide IsRun;
    var s, c := run[i], |run[i].hist.args|;
    InvIsWellFormed(s);
    SoloEnqueueBegins(s, t, item);
    hide After;
    var before := SoloEnqueueEnds(After(s, t, Enqueue(item)), t, c, HasRoom(s.mem));
    var last := before[|before| - 1];
    EndOfSoloEnqueue(last, t, c, HasRoom(s.mem));
    SoloAppend(before, t, Flush);
    path := before + [After(last, t, Flush)];
  }
}
