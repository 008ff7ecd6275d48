/**
 What is in the memory of the ring at any moment, also while producers are between taking a slot
 and writing it and while a flusher is at work: the emitted batches followed by what the ring
 holds line up with the queue, call by call.
 */
module BatcherRingContents {
  import opened Prelude
  import opened BatcherRing
  import opened BatcherRingInvariant
  import opened BatcherRingTheorems

  // ------------------------------------------------------------------- the flusher

  lemma StepKeepsFlusher(s: State, t: nat, ch: Choice)
    requires WellFormed(s.mem, s.hist) && t < |s.threads|
    requires LocalsOk(s.mem.count, s.mem.cap, |s.hist.args|, |s.hist.log|, s.threads[t])
    ensures var s' := Step(s, t, ch);
            && |s'.threads| == |s.threads|
            && (s'.hist.flusher == s.hist.flusher || s'.hist.flusher == Some(t) || s'.hist.flusher == None)
  {
  }

  lemma {:induction false} FlusherIsAThread(
    run: seq<State>, count: nat, cap: nat, items: seq<seq<Value>>, threads: nat, i: nat)
    requires IsRun(run, count, cap, items, threads) && i < |run|
    ensures run[i].hist.flusher.Some? ==> run[i].hist.flusher.value < |run[i].threads|
  {
    hide Step, WellFormed, LocalsOk;
    if i > 0 {
      FlusherIsAThread(run, count, cap, items, threads, i - 1);
      assert Next(run[i - 1], run[i]);
      var s := run[i - 1];
      var t: nat, ch :|
        && WellFormed(s.mem, s.hist) && t < |s.threads|
        && LocalsOk(s.mem.count, s.mem.cap, |s.hist.args|, |s.hist.log|, s.threads[t])
        && run[i] == Step(s, t, ch);
      StepKeepsFlusher(s, t, ch);
    }
  }

  // ------------------------------------------------------------------ what is held

  function Flusher(s: State): Thread {
    if s.hist.flusher.Some? && s.hist.flusher.value < |s.threads| then s.threads[s.hist.flusher.value] else Idle
  }

  /** The items in the buffers, read in drain order from buffer `d` up to the active one. */
  function Remaining(m: Memory, d: nat, left: nat): seq<Value>
    requires |m.items| == |m.index| == m.count && d < m.count
    requires forall i :: 0 <= i < m.count ==> |m.items[i]| == m.cap
    decreases left
  {
    m.items[d][..Min(m.index[d], m.cap)]
    + if d == m.active || left == 0 then [] else Remaining(m, NextIdx(m.count, d), left - 1)
  }

  /** What a flusher has taken out of the count of its buffer and not yet emitted. */
  function InTransit(s: State): seq<Value>
    requires WellFormed(s.mem, s.hist)
  {
    var th := Flusher(s);
    if th.FlushCopy? && th.d < s.mem.count && th.n <= s.mem.cap then s.mem.items[th.d][..th.n] else []
  }

  /** Where the oldest buffer is: behind `drain_idx` between the unsealing and the move of it. */
  function Oldest(s: State): nat
    requires WellFormed(s.mem, s.hist)
  {
    if Flusher(s).FlushAdvance? then NextIdx(s.mem.count, s.mem.drain) else s.mem.drain
  }

  function Contents(s: State): seq<Value>
    requires WellFormed(s.mem, s.hist)
  {
    InTransit(s) + Remaining(s.mem, Oldest(s), s.mem.count)
  }

  // ----------------------------------------------------------------- lining up

  /** Place by place, `values` are the items of `calls`, where the call has written its item. */
  predicate LinesUp(h: History, values: seq<Value>, calls: seq<nat>) {
    && |values| == |calls|
    && forall j :: 0 <= j < |calls| ==>
         && calls[j] < |h.args| && calls[j] < |h.written|
         && (h.written[calls[j]] ==> values[j] == h.args[calls[j]])
  }

  lemma LinesUpAppend(h: History, a: seq<Value>, b: seq<Value>, x: seq<nat>, y: seq<nat>)
    requires LinesUp(h, a, x) && LinesUp(h, b, y)
    ensures LinesUp(h, a + b, x + y)
  {
  }

  lemma {:induction false} QueueFirst(first: seq<nat>, rest: seq<seq<nat>>)
    ensures Queue([first] + rest) == first + Queue(rest)
  {
    var all, last := [first] + rest, |rest|;
    if rest == [] {
      assert all[..last] == [];
    } else {
      assert all[..last] == [first] + rest[..last - 1];
      QueueFirst(first, rest[..last - 1]);
    }
  }

  lemma QueueDrop(log: seq<seq<nat>>, g: nat)
    requires g < |log|
    ensures Queue(log[g..]) == log[g] + Queue(log[g + 1..])
  {
    assert log[g..] == [log[g]] + log[g + 1..];
    QueueFirst(log[g], log[g + 1..]);
  }

  lemma {:induction false} QueueSplit(log: seq<seq<nat>>, g: nat)
    requires g <= |log|
    ensures Queue(log) == Queue(log[..g]) + Queue(log[g..])
  {
    if g == |log| {
      assert log[..g] == log;
    } else {
      var last := |log| - 1;
      QueueSplit(log[..last], g);
      assert log[..last][..g] == log[..g];
      assert log[g..][..last - g] == log[..last][g..];
    }
  }

  /** The buffer of generation `g` lines up with what is logged for it. */
  ghost predicate BufferLinesUp(m: Memory, h: History, g: int) {
    && WellFormed(m, h) && 0 <= g < |h.slots| && g < |h.log| && h.slots[g] < m.count
    && LinesUp(h, m.items[h.slots[g]][..Min(m.index[h.slots[g]], m.cap)], h.log[g])
  }

  lemma OpenBuffer(m: Memory, h: History, g: nat)
    requires WellFormed(m, h) && RingOk(m, h) && RecordsOk(m, h) && h.floor <= g <= ActiveGen(h)
    ensures BufferLinesUp(m, h, g)
  {
    hide SealedBelow, ClearAbove, TicketsMatchLog, ResultsOk, OrderOk, OutputOk;
    assert IndexAt(m.index, h.slots, g) == m.index[h.slots[g]];
    forall j | 0 <= j < |h.log[g]|
      ensures SlotHolds(m.items, h.args, h.written, h.log, h.slots, g, j)
    {
    }
  }

  lemma RemainingStep(m: Memory, h: History, g: nat, left: nat)
    requires BufferLinesUp(m, h, g)
    ensures var d := h.slots[g];
            Remaining(m, d, left) == m.items[d][..Min(m.index[d], m.cap)]
              + if d == m.active || left == 0 then [] else Remaining(m, NextIdx(m.count, d), left - 1)
  {
  }

  lemma {:induction false} RemainingLinesUp(m: Memory, h: History, g: nat, left: nat)
    requires WellFormed(m, h) && SlotsOk(m.count, h.slots, h.freed) && IsSlot(h.slots, ActiveGen(h), m.active)
    requires forall k: int :: g <= k < |h.log| ==> BufferLinesUp(m, h, k)
    requires h.freed <= g <= ActiveGen(h) <= g + left
    ensures h.slots[g] < m.count && LinesUp(h, Remaining(m, h.slots[g], left), Queue(h.log[g..]))
    decreases left
  {
    hide LinesUp, Remaining, Queue;
    var d := h.slots[g];
    RemainingStep(m, h, g, left);
    QueueDrop(h.log, g);
    if g < ActiveGen(h) {
      assert h.slots[g] != h.slots[ActiveGen(h)] && h.slots[g + 1] == NextIdx(m.count, h.slots[g]);
      RemainingLinesUp(m, h, g + 1, left - 1);
      LinesUpAppend(h, m.items[d][..Min(m.index[d], m.cap)], Remaining(m, h.slots[g + 1], left - 1),
                    h.log[g], Queue(h.log[g + 1..]));
    } else {
      NothingBehind(h, g);
      var own := m.items[d][..Min(m.index[d], m.cap)];
      assert h.log[g] + [] == h.log[g] && own + [] == own;
    }
  }

  lemma NothingBehind(h: History, g: nat)
    requires g + 1 == |h.log|
    ensures Queue(h.log[g + 1..]) == []
  {
  }

  // --------------------------------------------------------- the phases of a flush

  /** What is known of the oldest generation while it is drained. */
  lemma DrainedBuffer(s: State, th: Thread, t: nat)
    requires Inv(s) && ThreadOk(s.mem, s.hist, th, t) && InDrain(th) && IsFlusher(th)
    ensures var m, h := s.mem, s.hist;
            && h.freed < ActiveGen(h) && h.floor == h.freed + 1
            && h.freed < |h.slots| && h.slots[h.freed] == m.drain
            && (th.FlushTake? ==> h.out == h.freed && BufferLinesUp(m, h, h.freed))
            && (th.FlushCopy? ==>
                  && h.out == h.freed && m.index[m.drain] == 0 && th.d == m.drain && th.n <= m.cap
                  && LinesUp(h, m.items[m.drain][..th.n], h.log[h.freed]))
            && (th.FlushUnseal? ==> h.out == h.freed + 1 && m.index[m.drain] == 0)
  {
    hide SealedBelow, ClearAbove, RecordsOk, WorkOk, NoLater, AddingOk, UnwrittenOk, WindowOk, ThreadsOk;
    var m, h := s.mem, s.hist;
    forall j | 0 <= j < |h.log[h.freed]|
      ensures SlotHolds(m.items, h.args, h.written, h.log, h.slots, h.freed, j)
    {
    }
  }

  /** Outside of a drain the oldest generation is where reading starts. */
  lemma OtherPhases(s: State)
    requires Inv(s) && (s.hist.flusher.Some? ==> s.hist.flusher.value < |s.threads|)
    ensures var m, h, th := s.mem, s.hist, Flusher(s);
            && (InDrain(th) ==> IsFlusher(th) && ThreadOk(m, h, th, h.flusher.value))
            && (!InDrain(th) ==> h.out == h.floor == h.freed && IsSlot(h.slots, h.freed, Oldest(s)))
  {
    hide SealedBelow, ClearAbove, RecordsOk, WorkOk, NoLater, AddingOk, UnwrittenOk, WindowOk, SlotsOk, Complete,
        DrainOk;
    if s.hist.flusher.Some? {
      assert ThreadOk(s.mem, s.hist, Flusher(s), s.hist.flusher.value);
    }
  }

  /** A drained buffer that counts nothing is skipped. */
  lemma SkipDrained(m: Memory, h: History)
    requires WellFormed(m, h) && SlotsOk(m.count, h.slots, h.freed) && IsSlot(h.slots, ActiveGen(h), m.active)
    requires h.freed < ActiveGen(h) && h.slots[h.freed] == m.drain && m.index[m.drain] == 0
    ensures h.slots[h.freed + 1] < m.count
    ensures Remaining(m, m.drain, m.count) == Remaining(m, h.slots[h.freed + 1], m.count - 1)
  {
    assert h.slots[h.freed] != h.slots[ActiveGen(h)] && h.slots[h.freed + 1] == NextIdx(m.count, m.drain);
    var next := Remaining(m, NextIdx(m.count, m.drain), m.count - 1);
    hide Remaining;
    RemainingOnce(m, m.drain, m.count);
    assert [] + next == next;
  }

  lemma RemainingOnce(m: Memory, d: nat, left: nat)
    requires |m.items| == |m.index| == m.count && d < m.count && m.count >= 2
    requires forall i :: 0 <= i < m.count ==> |m.items[i]| == m.cap
    requires m.index[d] == 0 && d != m.active && left > 0
    ensures Remaining(m, d, left) == [] + Remaining(m, NextIdx(m.count, d), left - 1)
  {
  }

  /** The generations behind the drained one line up. */
  lemma BehindDrained(s: State)
    requires Inv(s) && s.hist.freed < ActiveGen(s.hist) && s.hist.floor == s.hist.freed + 1
    requires s.hist.slots[s.hist.freed] == s.mem.drain && s.mem.index[s.mem.drain] == 0
    ensures var m, h := s.mem, s.hist;
            LinesUp(h, Remaining(m, m.drain, m.count), Queue(h.log[h.freed + 1..]))
  {
    hide LinesUp, Queue, SealedBelow, ClearAbove, RecordsOk, ThreadsOk, BufferLinesUp, AddingOk, UnwrittenOk, WindowOk,
         LogMatchesIndex, SlotsHold, Remaining;
    var m, h := s.mem, s.hist;
    forall g: int | h.freed + 1 <= g < |h.log| ensures BufferLinesUp(m, h, g) { OpenBuffer(m, h, g); }
    SkipDrained(m, h);
    RemainingLinesUp(m, h, h.freed + 1, m.count - 1);
  }

  lemma TakenLinesUp(s: State, th: Thread)
    requires Inv(s) && th == Flusher(s) && th.FlushTake? && s.hist.out == s.hist.freed
    requires s.hist.freed < ActiveGen(s.hist) && s.hist.slots[s.hist.freed] == s.mem.drain
    requires s.hist.floor == s.hist.freed + 1 && BufferLinesUp(s.mem, s.hist, s.hist.freed)
    ensures LinesUp(s.hist, Contents(s), Queue(s.hist.log[s.hist.out..]))
  {
    hide LinesUp, Queue, SealedBelow, ClearAbove, RecordsOk, ThreadsOk, BufferLinesUp;
    var m, h := s.mem, s.hist;
    forall g: int | h.freed <= g < |h.log| ensures BufferLinesUp(m, h, g) {
      if g > h.freed {
        OpenBuffer(m, h, g);
      }
    }
    RemainingLinesUp(m, h, h.freed, m.count);
    assert [] + Remaining(m, m.drain, m.count) == Remaining(m, m.drain, m.count);
  }

  lemma CopiedLinesUp(s: State, th: Thread)
    requires Inv(s) && th == Flusher(s) && th.FlushCopy? && s.hist.out == s.hist.freed
    requires s.hist.freed < ActiveGen(s.hist) && s.hist.slots[s.hist.freed] == s.mem.drain
    requires s.hist.floor == s.hist.freed + 1 && s.mem.index[s.mem.drain] == 0
    requires th.d == s.mem.drain && th.n <= s.mem.cap
    requires LinesUp(s.hist, s.mem.items[s.mem.drain][..th.n], s.hist.log[s.hist.freed])
    ensures LinesUp(s.hist, Contents(s), Queue(s.hist.log[s.hist.out..]))
  {
    hide LinesUp, Queue, SealedBelow, ClearAbove, RecordsOk, ThreadsOk;
    var m, h := s.mem, s.hist;
    BehindDrained(s);
    QueueDrop(h.log, h.freed);
    LinesUpAppend(h, m.items[m.drain][..th.n], Remaining(m, m.drain, m.count), h.log[h.freed],
                  Queue(h.log[h.freed + 1..]));
  }

  /** What the ring holds lines up with what is logged and not yet emitted. */
  lemma ContentsLineUp(s: State)
    requires Inv(s) && (s.hist.flusher.Some? ==> s.hist.flusher.value < |s.threads|)
    ensures s.hist.out <= |s.hist.log| && LinesUp(s.hist, Contents(s), Queue(s.hist.log[s.hist.out..]))
  {
    hide LinesUp, Queue, SealedBelow, ClearAbove, RecordsOk, ThreadsOk, BufferLinesUp, Remaining, ThreadOk;
    var m, h, th := s.mem, s.hist, Flusher(s);
    OtherPhases(s);
    if InDrain(th) {
      DrainedBuffer(s, th, h.flusher.value);
      if th.FlushTake? {
        TakenLinesUp(s, th);
      } else if th.FlushCopy? {
        CopiedLinesUp(s, th);
      } else {
        BehindDrained(s);
        assert [] + Remaining(m, m.drain, m.count) == Remaining(m, m.drain, m.count);
      }
    } else {
      forall g: int | h.freed <= g < |h.log| ensures BufferLinesUp(m, h, g) { OpenBuffer(m, h, g); }
      RemainingLinesUp(m, h, h.freed, m.count);
      assert [] + Remaining(m, Oldest(s), m.count) == Remaining(m, Oldest(s), m.count);
    }
  }

  // ---------------------------------------------------------------------- theorems

  lemma QueueInRange(h: History, p: nat)
    requires TicketsMatchLog(h.tickets, h.log) && p < |Queue(h.log)|
    ensures Queue(h.log)[p] < |h.tickets|
  {
    var k := TicketAt(h.log, p);
    PositionsFollowTickets(h.log, k, k);
  }

  lemma EmittedLinesUp(s: State)
    requires Inv(s)
    ensures s.hist.out <= |s.hist.log|
    ensures LinesUp(s.hist, Concat(s.mem.emitted), Queue(s.hist.log[..s.hist.out]))
  {
    hide RingOk, ThreadsOk, AddingOk, LogMatchesIndex, SlotsHold, OrderOk;
    var h := s.hist;
    StreamOfQueue(h.args, h.log[..h.out]);
    QueueSplit(h.log, h.out);
    forall p | 0 <= p < |Queue(h.log[..h.out])|
      ensures Queue(h.log[..h.out])[p] < |h.tickets|
    {
      QueueInRange(h, p);
    }
    hide Queue, TicketsMatchLog;
  }

  /** At every moment of every run, whatever producers and the flusher are doing: the emitted batches
      followed by what the ring holds, in drain order, are as long as the queue, and the item of
      every call that has written it is at the place of the call. */
  lemma {:induction false} RingHoldsTheQueue(
    run: seq<State>, count: nat, cap: nat, items: seq<seq<Value>>, threads: nat, i: nat)
    requires IsRun(run, count, cap, items, threads) && i < |run|
    ensures WellFormed(run[i].mem, run[i].hist)
    ensures LinesUp(run[i].hist, Concat(run[i].mem.emitted) + Contents(run[i]), Queue(run[i].hist.log))
  {
    hide LinesUp, Queue, Contents, RingOk, RecordsOk, ThreadsOk, AddingOk, UnwrittenOk, WindowOk, IsRun;
    var s := run[i];
    RunKeepsInv(run, count, cap, items, threads, i);
    FlusherIsAThread(run, count, cap, items, threads, i);
    ContentsLineUp(s);
    EmittedLinesUp(s);
    QueueSplit(s.hist.log, s.hist.out);
    LinesUpAppend(s.hist, Concat(s.mem.emitted), Contents(s), Queue(s.hist.log[..s.hist.out]),
                  Queue(s.hist.log[s.hist.out..]));
  }

  /** So an item that was accepted is never lost: at every moment it is in the emitted batches or in
      the ring, at the one place that its call has in the queue. */
  lemma {:induction false} AcceptedIsHeld(
    run: seq<State>, count: nat, cap: nat, items: seq<seq<Value>>, threads: nat, i: nat, c: nat)
    requires IsRun(run, count, cap, items, threads) && i < |run|
    requires c < |run[i].hist.results| && run[i].hist.results[c] == Some(true)
    ensures var m, h := run[i].mem, run[i].hist;
            && WellFormed(m, h) && c < |h.tickets| && h.tickets[c].Some? && h.tickets[c].value.gen < |h.log|
            && var p := Position(h.log, h.tickets[c].value);
               && p < |Queue(h.log)| == |Concat(m.emitted) + Contents(run[i])|
               && Queue(h.log)[p] == c
               && (Concat(m.emitted) + Contents(run[i]))[p] == h.args[c]
  {
    hide IsRun, Queue, Contents, Position;
    RunKeepsInv(run, count, cap, items, threads, i);
    RingHoldsTheQueue(run, count, cap, items, threads, i);
    hide RingOk, ThreadsOk, AddingOk, UnwrittenOk, WindowOk, LogMatchesIndex, SlotsHold, OrderOk, OutputOk;
    var h := run[i].hist;
    PositionsFollowTickets(h.log, h.tickets[c].value, h.tickets[c].value);
  }

  /** Nobody is between taking a slot and writing it. */
  predicate AllWritten(s: State) {
    forall t: nat :: t < |s.threads| ==> !s.threads[t].WriteSlot?
  }

  /** While no slot is half written, what was emitted and what the ring holds are the whole queue,
      item by item. */
  lemma {:induction false} EmittedThenHeld(
    run: seq<State>, count: nat, cap: nat, items: seq<seq<Value>>, threads: nat, i: nat)
    requires IsRun(run, count, cap, items, threads) && i < |run| && AllWritten(run[i])
    ensures WellFormed(run[i].mem, run[i].hist)
    ensures Concat(run[i].mem.emitted) + Contents(run[i]) == ItemsOf(run[i].hist.args, Queue(run[i].hist.log))
  {
    hide IsRun, Contents;
    RunKeepsInv(run, count, cap, items, threads, i);
    RingHoldsTheQueue(run, count, cap, items, threads, i);
    hide RingOk, ThreadsOk, AddingOk, WindowOk, LogMatchesIndex, SlotsHold, OrderOk, OutputOk;
    var h := run[i].hist;
    forall p | 0 <= p < |Queue(h.log)| ensures h.written[Queue(h.log)[p]] {
      var k := TicketAt(h.log, p);
      PositionsFollowTickets(h.log, k, k);
    }
  }
}
