/** The steps that move the ring: sealing, swapping, draining and unsealing a buffer. */
module BatcherRingRotation {
  import opened Prelude
  import opened BatcherRing
  import opened BatcherRingInvariant
  import opened BatcherRingSteps

  // ------------------------------------------------------------ sealing a buffer

  lemma SealKeepsRing(m: Memory, h: History, a: nat, g: nat)
    requires WellFormed(m, h) && RingOk(m, h)
    requires a < m.count && IsSlot(h.slots, g, a) && h.freed <= g <= ActiveGen(h)
    ensures RingOk(m.(sealed := m.sealed[a := true]), h)
  {
  }

  lemma SealIsPrivateTo(m: Memory, h: History, a: nat, sealer: nat, th: Thread, t: nat)
    requires a < |m.sealed| && ThreadOk(m, h, th, t)
    ensures ThreadOk(m.(sealed := m.sealed[a := true]), h.(sealer := sealer), th, t)
  {
    hide Complete, DrainOk;
  }

  lemma SealerGoesOn(m: Memory, h: History, sealer: nat, th: Thread, t: nat)
    requires WellFormed(m, h) && RingOk(m, h) && ThreadOk(m, h, th, t) && th.Rotate? && th.pc.Seal?
    ensures th.a < m.count
    ensures ThreadOk(m.(sealed := m.sealed[th.a := true]), h.(sealer := sealer), Rotate(Swap, th.a, th.g, th.ret), t)
  {
    RotateFrom(m, h, th, t);
    SealIsPrivateTo(m, h, th.a, sealer, th, t);
    hide RingOk, NoLater, Complete, DrainOk;
  }

  lemma StepSeal(s: State, t: nat)
    requires Inv(s) && t < |s.threads| && s.threads[t].Rotate? && s.threads[t].pc.Seal?
    ensures var th := s.threads[t]; th.a < s.mem.count && Inv(RotateStep(s, t, th.pc, th.a, th.g, th.ret))
  {
    hide SlotsOk, SealedBelow, ClearAbove, RecordsOk, ThreadOk;
    var m, h, th := s.mem, s.hist, s.threads[t];
    var a := th.a;
    assert ThreadOk(m, h, th, t);
    RotateFrom(m, h, th, t);
    SealKeepsRing(m, h, a, th.g);
    var s' := RotateStep(s, t, th.pc, a, th.g, th.ret);
    RecordsIgnoreSeal(m, h, a, s'.hist.sealer);
    forall u: nat | u < |s'.threads|
      ensures ThreadOk(s'.mem, s'.hist, s'.threads[u], u)
    {
      if u != t {
        SealIsPrivateTo(m, h, a, s'.hist.sealer, s.threads[u], u);
      } else {
        SealerGoesOn(m, h, s'.hist.sealer, th, t);
      }
    }
    AddingKept(m.adding, m.adding, s.threads, t, s'.threads[t]);
  }

  lemma RecordsIgnoreSeal(m: Memory, h: History, a: nat, sealer: nat)
    requires a < |m.sealed| && RecordsOk(m, h)
    ensures RecordsOk(m.(sealed := m.sealed[a := true]), h.(sealer := sealer))
  {
  }

  // ------------------------------------------------------- publishing a new buffer

  lemma SwapKeepsRing(m: Memory, h: History)
    requires WellFormed(m, h) && RingOk(m, h) && |h.log| < |h.slots| && m.sealed[m.active]
    ensures var m' := m.(active := NextIdx(m.count, m.active));
      RingOk(m', h.(log := h.log + [[]])) && !m'.sealed[m'.active]
    ensures IndexAt(m.index, h.slots, |h.log|) == 0
  {
    assert NextIdx(m.count, m.active) == h.slots[|h.log|];
  }

  lemma SwapKeepsRecords(m: Memory, h: History, active: nat)
    requires RecordsOk(m, h) && h.out <= h.floor && IndexAt(m.index, h.slots, |h.log|) == 0
    ensures RecordsOk(m.(active := active), h.(log := h.log + [[]]))
  {
    hide OrderOk, ResultsOk;
    var log' := h.log + [[]];
    assert log'[..h.out] == h.log[..h.out];
    forall g: int, j: int | h.floor <= g < |log'| && 0 <= j < |log'[g]|
      ensures SlotHolds(m.items, h.args, h.written, log', h.slots, g, j)
    {
      assert SlotHolds(m.items, h.args, h.written, h.log, h.slots, g, j);
    }
  }

  lemma SwapKeepsFlusher(m: Memory, h: History, active: nat, th: Thread)
    requires h.freed < |h.log| && FlusherOk(m, h, th)
    ensures FlusherOk(m.(active := active), h.(log := h.log + [[]]), th)
  {
    var log' := h.log + [[]];
    assert log'[h.freed] == h.log[h.freed];
    if InDrain(th) {
      forall j: int | 0 <= j < |log'[h.freed]|
        ensures SlotHolds(m.items, h.args, h.written, log', h.slots, h.freed, j)
      {
        assert SlotHolds(m.items, h.args, h.written, h.log, h.slots, h.freed, j);
      }
    }
  }

  lemma LocalsGrow(count: nat, cap: nat, calls: nat, gens: nat, calls': nat, gens': nat, th: Thread)
    requires LocalsOk(count, cap, calls, gens, th) && calls <= calls' && gens <= gens'
    ensures LocalsOk(count, cap, calls', gens', th)
  {
  }

  /** A rotation that is under way is not from the generation that a swap begins. */
  lemma SwapKeepsRotation(m: Memory, h: History, th: Thread, t: nat)
    requires h.freed < |h.log| && ThreadOk(m, h, th, t)
    ensures RotateOk(m.sealed, h.slots, ActiveGen(h) + 1, th)
  {
    hide WorkOk, NoLater, Complete, DrainOk, LocalsOk;
  }

  lemma SwapIsPrivateTo(m: Memory, h: History, active: nat, th: Thread, t: nat)
    requires h.freed < |h.log| && ThreadOk(m, h, th, t)
    ensures ThreadOk(m.(active := active), h.(log := h.log + [[]]), th, t)
  {
    hide FlusherOk, WorkOk, NoLater, LocalsOk, RotateOk, WorkOf, PlaceOf, IsFlusher;
    LocalsGrow(m.count, m.cap, |h.args|, |h.log|, |h.args|, |h.log| + 1, th);
    SwapKeepsRotation(m, h, th, t);
    if IsFlusher(th) {
      SwapKeepsFlusher(m, h, active, th);
    }
    if WorkOf(th).Some? {
      SwapKeepsWork(h, WorkOf(th).value, t);
    }
  }

  lemma SwapKeepsWork(h: History, w: Work, t: nat)
    requires WorkOk(h, w, t)
    ensures WorkOk(h.(log := h.log + [[]]), w, t)
  {
  }

  lemma SwapMisses(m: Memory, h: History, th: Thread, t: nat)
    requires ThreadOk(m, h, th, t) && th.Rotate? && th.pc.Swap?
    ensures ThreadOk(m, h, Rotate(Retest, th.a, th.g, th.ret), t)
  {
    hide NoLater, Complete, DrainOk;
  }

  lemma AtSwap(m: Memory, h: History, th: Thread, t: nat)
    requires RingOk(m, h) && ThreadOk(m, h, th, t) && th.Rotate? && th.pc.Swap?
    ensures th.ret.InFlush? ==> SealedAt(m.sealed, h.slots, h.freed)
    ensures m.active == th.a ==> |h.log| < |h.slots| && m.active < |m.sealed| && m.sealed[m.active]
  {
    RotateFrom(m, h, th, t);
  }

  lemma StepSwap(s: State, t: nat)
    requires Inv(s) && t < |s.threads| && s.threads[t].Rotate? && s.threads[t].pc.Swap?
    ensures var th := s.threads[t]; th.a < s.mem.count && Inv(RotateStep(s, t, th.pc, th.a, th.g, th.ret))
  {
    hide RecordsOk, SlotsOk, SealedBelow, ClearAbove, ThreadOk;
    var m, h, th := s.mem, s.hist, s.threads[t];
    assert ThreadOk(m, h, th, t);
    RotateFrom(m, h, th, t);
    SwapMisses(m, h, th, t);
    AtSwap(m, h, th, t);
    if m.active == th.a {
      SwapKeepsRing(m, h);
      SwapKeepsRecords(m, h, NextIdx(m.count, m.active));
      var s' := RotateStep(s, t, th.pc, th.a, th.g, th.ret);
      SwapIsPrivateTo(m, h, s'.mem.active, th, t);
      ResumeOk(s'.mem, s'.hist, th, t, true);
      forall u: nat | u < |s'.threads|
        ensures ThreadOk(s'.mem, s'.hist, s'.threads[u], u)
      {
        if u != t {
          SwapIsPrivateTo(m, h, s'.mem.active, s.threads[u], u);
        }
      }
      AddingKept(m.adding, m.adding, s.threads, t, s'.threads[t]);
    } else {
      LocalStep(s, t, Rotate(Retest, th.a, th.g, th.ret));
    }
  }

  // ------------------------------------------------------------- closing a buffer

  /** When the flusher sees `adding` at zero, the buffer is not the active one. */
  lemma WaitedOut(s: State, t: nat)
    requires Inv(s) && t < |s.threads| && s.threads[t].FlushWait? && s.threads[t].d < s.mem.count
    requires s.mem.adding[s.threads[t].d] <= 0
    ensures s.hist.freed < ActiveGen(s.hist)
  {
    hide SlotsOk, SealedBelow, ClearAbove, RecordsOk;
    var m, h, d := s.mem, s.hist, s.threads[t].d;
    NobodyHolds(m.adding, s.threads, d);
    assert ThreadOk(m, h, s.threads[t], t);
    if h.freed == ActiveGen(h) {
      var th := s.threads[h.sealer];
      assert ThreadOk(m, h, th, h.sealer);
      RotateFrom(m, h, th, h.sealer);
      assert false;
    }
  }

  /** ... and every slot of it that was taken has been written. */
  lemma WaitedIsComplete(s: State, t: nat)
    requires Inv(s) && t < |s.threads| && s.threads[t].FlushWait? && s.threads[t].d < s.mem.count
    requires s.mem.adding[s.threads[t].d] <= 0
    ensures var m, h := s.mem, s.hist; Complete(m.items, h.args, h.written, h.log, h.slots, h.freed)
  {
    hide SealedBelow, ClearAbove, OrderOk, OutputOk;
    var m, h, d := s.mem, s.hist, s.threads[t].d;
    NobodyHolds(m.adding, s.threads, d);
    assert ThreadOk(m, h, s.threads[t], t);
    forall j: int | 0 <= j < |h.log[h.freed]|
      ensures SlotHolds(m.items, h.args, h.written, h.log, h.slots, h.freed, j) && h.written[h.log[h.freed][j]]
    {
      var c := h.log[h.freed][j];
      assert h.tickets[c] == Some(Ticket(h.freed, j));
      if !h.written[c] {
        assert false;  // its owner would be about to write, inside of the buffer
      }
    }
  }

  /** Nobody is inside the closed generation any more. */
  lemma NobodyBelow(m: Memory, h: History, th: Thread, t: nat)
    requires RingOk(m, h) && h.floor == h.freed && !Holds(th, h.slots[h.freed])
    requires ThreadOk(m, h, th, t) && !IsFlusher(th)
    ensures ThreadOk(m, h.(floor := h.freed + 1), th, t)
  {
    hide SealedBelow, ClearAbove;
  }

  lemma CloseKeepsShared(m: Memory, h: History)
    requires RingOk(m, h) && RecordsOk(m, h) && h.floor == h.freed < ActiveGen(h) && h.flusher.Some?
    ensures RingOk(m, h.(floor := h.freed + 1)) && RecordsOk(m, h.(floor := h.freed + 1))
  {
    hide SlotsOk, SealedBelow, ClearAbove, TicketsMatchLog, ResultsOk, OrderOk, OutputOk;
  }

  lemma StepFlushWait(s: State, t: nat)
    requires Inv(s) && t < |s.threads| && s.threads[t].FlushWait?
    ensures Inv(FlushStep(s, t))
  {
    hide RecordsOk, SlotsOk, SealedBelow, ClearAbove;
    var m, h, th := s.mem, s.hist, s.threads[t];
    assert ThreadOk(m, h, th, t);
    if m.adding[th.d] <= 0 {
      WaitedOut(s, t);
      WaitedIsComplete(s, t);
      NobodyHolds(m.adding, s.threads, th.d);
      CloseKeepsShared(m, h);
      var s' := FlushStep(s, t);
      CloserMayTake(m, h, th, t);
      forall u: nat | u < |s'.threads|
        ensures ThreadOk(m, s'.hist, s'.threads[u], u)
      {
        if u != t {
          assert ThreadOk(m, h, s.threads[u], u);
          NobodyBelow(m, h, s.threads[u], u);
        }
      }
      AddingKept(m.adding, m.adding, s.threads, t, s'.threads[t]);
    }
  }

  lemma CloserMayTake(m: Memory, h: History, th: Thread, t: nat)
    requires RecordsOk(m, h) && th.FlushWait? && ThreadOk(m, h, th, t) && h.freed < |h.log|
    requires Complete(m.items, h.args, h.written, h.log, h.slots, h.freed)
    ensures ThreadOk(m, h.(floor := h.freed + 1), FlushTake(th.fi, th.d), t)
  {
    hide SlotsHold, TicketsMatchLog, ResultsOk, OrderOk, OutputOk;
  }

  // ------------------------------------------------------------ draining a buffer

  lemma ResetKeepsShared(m: Memory, h: History, d: nat)
    requires WellFormed(m, h) && RingOk(m, h) && RecordsOk(m, h) && d < m.count
    requires IsSlot(h.slots, h.freed, d) && h.floor == h.freed + 1
    ensures RingOk(m.(index := m.index[d := 0]), h) && RecordsOk(m.(index := m.index[d := 0]), h)
  {
    hide SealedBelow, SlotsHold, TicketsMatchLog, ResultsOk, OrderOk, OutputOk;
  }

  /** The exchange that resets `index` reads how many slots were taken. */
  lemma StepFlushTake(s: State, t: nat)
    requires Inv(s) && t < |s.threads| && s.threads[t].FlushTake?
    ensures Inv(FlushStep(s, t))
  {
    hide RecordsOk, RingOk, Complete;
    var m, h, th := s.mem, s.hist, s.threads[t];
    assert ThreadOk(m, h, th, t);
    ResetKeepsShared(m, h, th.d);
    var s' := FlushStep(s, t);
    forall u: nat | u < |s'.threads|
      ensures ThreadOk(s'.mem, h, s'.threads[u], u)
    {
    }
    AddingKept(m.adding, m.adding, s.threads, t, s'.threads[t]);
  }

  lemma EmitKeepsRecords(m: Memory, h: History, batch: seq<Value>)
    requires RecordsOk(m, h) && h.out == h.freed < |h.log| && batch == ItemsOf(h.args, h.log[h.freed])
    ensures RecordsOk(if |batch| > 0 then m.(emitted := m.emitted + [batch]) else m, h.(out := h.freed + 1))
  {
    hide LogMatchesIndex, SlotsHold, TicketsMatchLog, ResultsOk, OrderOk;
    var upTo := h.log[..h.freed + 1];
    assert upTo[..h.freed] == h.log[..h.freed];
    assert (m.emitted + [batch])[..|m.emitted|] == m.emitted;
  }

  /** Emitting changes nothing for the other threads. */
  lemma EmitIsPrivateTo(m: Memory, h: History, emitted: seq<seq<Value>>, th: Thread, t: nat)
    requires ThreadOk(m, h, th, t) && h.flusher != Some(t)
    ensures ThreadOk(m.(emitted := emitted), h.(out := h.freed + 1), th, t)
  {
    hide NoLater, FlusherOk;
  }

  /** What the flusher knows while it copies, and after it has emitted. */
  lemma EmitterGoesOn(m: Memory, h: History, emitted: seq<seq<Value>>, th: Thread, t: nat)
    requires ThreadOk(m, h, th, t) && th.FlushCopy? && |th.batch| >= th.n
    ensures h.flusher == Some(t) && h.out == h.freed < |h.log| && h.freed + 1 == h.floor
    ensures th.batch == ItemsOf(h.args, h.log[h.freed]) && |th.batch| == th.n
    ensures LocalsOk(m.count, m.cap, |h.args|, |h.log|, th)
    ensures ThreadOk(m.(emitted := emitted), h.(out := h.freed + 1), FlushUnseal(th.fi, th.d), t)
  {
    hide Complete;
  }

  lemma StepFlushEmit(s: State, t: nat)
    requires Inv(s) && t < |s.threads| && s.threads[t].FlushCopy?
    requires |s.threads[t].batch| >= s.threads[t].n
    ensures Inv(FlushStep(s, t))
  {
    hide RecordsOk, SlotsOk, SealedBelow, ClearAbove, ThreadOk;
    var m, h, th := s.mem, s.hist, s.threads[t];
    assert ThreadOk(m, h, th, t);
    var emitted := if th.n > 0 then m.emitted + [th.batch] else m.emitted;
    EmitterGoesOn(m, h, emitted, th, t);
    EmitKeepsRecords(m, h, th.batch);
    var s' := FlushStep(s, t);
    forall u: nat | u < |s'.threads|
      ensures ThreadOk(s'.mem, s'.hist, s'.threads[u], u)
    {
      if u != t {
        EmitIsPrivateTo(m, h, emitted, s.threads[u], u);
      }
    }
    AddingKept(m.adding, m.adding, s.threads, t, s'.threads[t]);
  }

  // ----------------------------------------------------------- unsealing a buffer

  function Freed(h: History, d: nat): History {
    h.(freed := h.freed + 1, slots := h.slots + [d])
  }

  lemma UnsealKeepsSlots(m: Memory, h: History, d: nat)
    requires SlotsOk(m.count, h.slots, h.freed) && IsSlot(h.slots, h.freed, d)
    ensures SlotsOk(m.count, h.slots + [d], h.freed + 1)
    ensures IsSlot(h.slots + [d], h.freed + 1, NextIdx(m.count, d))
  {
  }

  lemma UnsealKeepsRing(m: Memory, h: History, d: nat)
    requires WellFormed(m, h) && RingOk(m, h) && IsSlot(h.slots, h.freed, d) && d < m.count
    requires h.floor == h.out == h.freed + 1 && m.index[d] == 0 && h.flusher.Some?
    ensures RingOk(m.(sealed := m.sealed[d := false]), Freed(h, d))
  {
    UnsealKeepsSlots(m, h, d);
    var slots', sealed' := h.slots + [d], m.sealed[d := false];
    assert forall g: int :: 0 <= g < |h.slots| ==> slots'[g] == h.slots[g];
    forall g: int | h.freed < g < ActiveGen(h)
      ensures SealedAt(sealed', slots', g)
    {
      assert SealedAt(m.sealed, h.slots, g);
    }
    forall g: int | ActiveGen(h) < g < |slots'|
      ensures !SealedAt(sealed', slots', g) && IndexAt(m.index, slots', g) == 0
    {
      if g < |h.slots| {
        assert !SealedAt(m.sealed, h.slots, g) && IndexAt(m.index, h.slots, g) == 0;
      }
    }
  }

  lemma UnsealKeepsRecords(m: Memory, h: History, d: nat, sealed: seq<bool>)
    requires RecordsOk(m, h) && |h.log| <= |h.slots|
    ensures RecordsOk(m.(sealed := sealed), Freed(h, d))
  {
    hide TicketsMatchLog, ResultsOk, OrderOk, OutputOk;
    var slots' := h.slots + [d];
    forall g: int | h.floor <= g < |h.log|
      ensures |h.log[g]| == Min(IndexAt(m.index, slots', g), m.cap)
    {
      assert IndexAt(m.index, slots', g) == IndexAt(m.index, h.slots, g);
    }
    forall g: int, j: int | h.floor <= g < |h.log| && 0 <= j < |h.log[g]|
      ensures SlotHolds(m.items, h.args, h.written, h.log, slots', g, j)
    {
      assert SlotHolds(m.items, h.args, h.written, h.log, h.slots, g, j);
    }
  }

  lemma UnsealIsPrivateTo(m: Memory, h: History, d: nat, th: Thread, t: nat)
    requires WellFormed(m, h) && RingOk(m, h) && d < m.count && IsSlot(h.slots, h.freed, d)
    requires h.floor == h.freed + 1 && ThreadOk(m, h, th, t) && !IsFlusher(th)
    ensures ThreadOk(m.(sealed := m.sealed[d := false]), Freed(h, d), th, t)
  {
    hide SealedBelow, ClearAbove;
    if th.Rotate? && th.pc.Swap? {
      assert h.slots[th.g] != h.slots[h.freed];
    }
  }

  lemma StepFlushUnseal(s: State, t: nat)
    requires Inv(s) && t < |s.threads| && s.threads[t].FlushUnseal?
    ensures Inv(FlushStep(s, t))
  {
    hide RecordsOk, SlotsOk, SealedBelow, ClearAbove, Complete;
    var m, h, th := s.mem, s.hist, s.threads[t];
    var d := th.d;
    assert ThreadOk(m, h, th, t);
    UnsealKeepsRing(m, h, d);
    UnsealKeepsSlots(m, h, d);
    UnsealKeepsRecords(m, h, d, m.sealed[d := false]);
    var s' := FlushStep(s, t);
    forall u: nat | u < |s'.threads|
      ensures ThreadOk(s'.mem, s'.hist, s'.threads[u], u)
    {
      if u != t {
        assert ThreadOk(m, h, s.threads[u], u);
        UnsealIsPrivateTo(m, h, d, s.threads[u], u);
      }
    }
    AddingKept(m.adding, m.adding, s.threads, t, s'.threads[t]);
  }

  lemma StepFlushAdvance(s: State, t: nat)
    requires Inv(s) && t < |s.threads| && s.threads[t].FlushAdvance?
    ensures Inv(FlushStep(s, t))
  {
    hide SlotsOk, SealedBelow, ClearAbove, LogMatchesIndex, SlotsHold, TicketsMatchLog, ResultsOk, OrderOk, OutputOk;
    var m, h, th := s.mem, s.hist, s.threads[t];
    assert ThreadOk(m, h, th, t);
    var s' := FlushStep(s, t);
    forall u: nat | u < |s'.threads|
      ensures ThreadOk(s'.mem, h, s'.threads[u], u)
    {
    }
    AddingKept(m.adding, m.adding, s.threads, t, s'.threads[t]);
  }

  lemma StepFlushEnd(s: State, t: nat)
    requires Inv(s) && t < |s.threads| && s.threads[t].FlushEnd?
    ensures Inv(FlushStep(s, t))
  {
    hide SlotsOk, SealedBelow, ClearAbove, LogMatchesIndex, SlotsHold, TicketsMatchLog, ResultsOk, OrderOk, OutputOk;
    var m, h, th := s.mem, s.hist, s.threads[t];
    assert ThreadOk(m, h, th, t);
    var s' := FlushStep(s, t);
    forall u: nat | u < |s'.threads|
      ensures ThreadOk(s'.mem, s'.hist, s'.threads[u], u)
    {
    }
    AddingKept(m.adding, m.adding, s.threads, t, s'.threads[t]);
  }

  // ---------------------------------------------------------------- idle threads

  lemma StepBeginFlush(s: State, t: nat)
    requires Inv(s) && t < |s.threads| && s.threads[t].Idle?
    ensures Inv(IdleStep(s, t, Flush))
  {
    hide SlotsOk, SealedBelow, ClearAbove, LogMatchesIndex, SlotsHold, TicketsMatchLog, ResultsOk, OrderOk, OutputOk;
    var m, h := s.mem, s.hist;
    assert ThreadOk(m, h, s.threads[t], t);
    var s' := IdleStep(s, t, Flush);
    if !m.flushing {
      forall u: nat | u < |s'.threads|
        ensures ThreadOk(s'.mem, s'.hist, s'.threads[u], u)
      {
        assert ThreadOk(m, h, s.threads[u], u);
      }
      AddingKept(m.adding, m.adding, s.threads, t, s'.threads[t]);
    }
  }

  /** The items of calls already made do not depend on later calls. */
  lemma {:induction false} StreamIgnoresNewCalls(args: seq<Value>, item: Value, log: seq<seq<nat>>)
    requires forall g: nat, j: nat :: g < |log| && j < |log[g]| ==> log[g][j] < |args|
    ensures StreamOf(args + [item], log) == StreamOf(args, log)
  {
    if log != [] {
      var last := |log| - 1;
      assert forall g: nat :: g < last ==> log[..last][g] == log[g];
      StreamIgnoresNewCalls(args, item, log[..last]);
      assert ItemsOf(args + [item], log[last]) == ItemsOf(args, log[last]);
    }
  }

  function Called(h: History, t: nat, item: Value): History {
    h.(args := h.args + [item], owners := h.owners + [t], before := h.before + [Returned(h.results)],
       tickets := h.tickets + [None], written := h.written + [false], results := h.results + [None])
  }

  lemma CallKeepsResults(h: History, t: nat, item: Value)
    requires ResultsOk(h.tickets, h.written, h.results) && OrderOk(h.before, h.tickets, h.results)
    ensures var h' := Called(h, t, item);
            ResultsOk(h'.tickets, h'.written, h'.results) && OrderOk(h'.before, h'.tickets, h'.results)
  {
  }

  lemma CallKeepsRecords(m: Memory, h: History, t: nat, item: Value)
    requires WellFormed(m, h) && RecordsOk(m, h)
    ensures RecordsOk(m, Called(h, t, item))
  {
    hide LogMatchesIndex, OrderOk, ResultsOk;
    var h' := Called(h, t, item);
    CallKeepsResults(h, t, item);
    StreamIgnoresNewCalls(h.args, item, h.log[..h.out]);
    assert h'.results[..|h.results|] == h.results;
    forall g: int, j: int | h.floor <= g < |h.log| && 0 <= j < |h.log[g]|
      ensures SlotHolds(m.items, h'.args, h'.written, h.log, h.slots, g, j)
    {
      assert SlotHolds(m.items, h.args, h.written, h.log, h.slots, g, j);
    }
  }

  lemma CallKeepsFlusher(m: Memory, h: History, t: nat, item: Value, th: Thread)
    requires WellFormed(m, h) && FlusherOk(m, h, th) && TicketsMatchLog(h.tickets, h.log)
    ensures FlusherOk(m, Called(h, t, item), th)
  {
    var h' := Called(h, t, item);
    if InDrain(th) {
      assert ItemsOf(h'.args, h.log[h.freed]) == ItemsOf(h.args, h.log[h.freed]);
      forall j: int | 0 <= j < |h.log[h.freed]|
        ensures SlotHolds(m.items, h'.args, h'.written, h.log, h.slots, h.freed, j)
      {
        assert SlotHolds(m.items, h.args, h.written, h.log, h.slots, h.freed, j);
      }
    }
  }

  lemma CallKeepsInside(h: History, t: nat, item: Value, p: Place)
    requires Inside(h, p)
    ensures Inside(Called(h, t, item), p)
  {
  }

  lemma CallKeepsWork(h: History, t: nat, item: Value, w: Work, u: nat)
    requires WorkOk(h, w, u)
    ensures WorkOk(Called(h, t, item), w, u)
  {
  }

  lemma CallIsPrivateTo(m: Memory, h: History, t: nat, item: Value, th: Thread, u: nat)
    requires WellFormed(m, h) && ThreadOk(m, h, th, u) && TicketsMatchLog(h.tickets, h.log)
    ensures ThreadOk(m, Called(h, t, item), th, u)
  {
    hide WellFormed, FlusherOk, TicketsMatchLog, Inside, WorkOk, LocalsOk, RotateOk, WorkOf, PlaceOf, IsFlusher;
    LocalsGrow(m.count, m.cap, |h.args|, |h.log|, |h.args| + 1, |h.log|, th);
    if IsFlusher(th) {
      CallKeepsFlusher(m, h, t, item, th);
    }
    if PlaceOf(th).Some? {
      CallKeepsInside(h, t, item, PlaceOf(th).value);
    }
    if WorkOf(th).Some? {
      CallKeepsWork(h, t, item, WorkOf(th).value, u);
    }
  }

  lemma StepBeginEnqueue(s: State, t: nat, item: Value)
    requires Inv(s) && t < |s.threads| && s.threads[t].Idle?
    ensures Inv(IdleStep(s, t, Enqueue(item)))
  {
    hide SlotsOk, SealedBelow, ClearAbove, LogMatchesIndex, SlotsHold, TicketsMatchLog, ResultsOk, OrderOk, OutputOk;
    var m, h := s.mem, s.hist;
    var s' := IdleStep(s, t, Enqueue(item));
    CallKeepsRecords(m, h, t, item);
    forall u: nat | u < |s'.threads|
      ensures ThreadOk(m, s'.hist, s'.threads[u], u)
    {
      if u != t {
        CallIsPrivateTo(m, h, t, item, s.threads[u], u);
      }
    }
    AddingKept(m.adding, m.adding, s.threads, t, s'.threads[t]);
  }
}
