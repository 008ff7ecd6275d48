/** Every step of the buffer ring keeps the invariant. */
module BatcherRingSteps {
  import opened Prelude
  import opened BatcherRing
  import opened BatcherRingInvariant

  // ---------------------------------------------------------- counting holders

  lemma HoldersUpdate(threads: seq<Thread>, t: nat, th: Thread, i: nat)
    requires t < |threads|
    ensures |Holders(threads[t := th], i)| - (if Holds(th, i) then 1 else 0)
         == |Holders(threads, i)| - (if Holds(threads[t], i) then 1 else 0)
  {
    hide Holds;
    var rest := Holders(threads, i) - {t};
    assert Holders(threads[t := th], i) == if Holds(th, i) then rest + {t} else rest;
    assert Holders(threads, i) == if Holds(threads[t], i) then rest + {t} else rest;
  }

  /** The moving thread keeps, takes or gives back its count in `adding`. */
  lemma AddingKept(adding: seq<int>, adding': seq<int>, threads: seq<Thread>, t: nat, th: Thread)
    requires AddingOk(adding, threads) && t < |threads| && |adding'| == |adding|
    requires forall i: nat :: i < |adding| ==>
               (adding'[i] - (if Holds(th, i) then 1 else 0)
                == adding[i] - (if Holds(threads[t], i) then 1 else 0))
    ensures AddingOk(adding', threads[t := th])
  {
    forall i: nat | i < |adding'|
      ensures adding'[i] == |Holders(threads[t := th], i)|
    {
      HoldersUpdate(threads, t, th, i);
    }
  }

  /** An `adding` of zero means nobody is inside. */
  lemma NobodyHolds(adding: seq<int>, threads: seq<Thread>, i: nat)
    requires AddingOk(adding, threads) && i < |adding| && adding[i] <= 0
    ensures forall t: nat :: t < |threads| ==> !Holds(threads[t], i)
  {
    assert Holders(threads, i) == {};
    forall t: nat | t < |threads|
      ensures !Holds(threads[t], i)
    {
      assert t !in Holders(threads, i);
    }
  }

  // ------------------------------------------------------- steps that only load

  /** A step that changes nothing but the position of the thread that takes it. */
  lemma LocalStep(s: State, t: nat, th: Thread)
    requires Inv(s) && t < |s.threads|
    requires ThreadOk(s.mem, s.hist, th, t)
    requires forall i: nat :: Holds(th, i) == Holds(s.threads[t], i)
    requires !s.threads[t].WriteSlot?
    requires s.threads[t].Rotate? && s.threads[t].pc.Swap? ==> s.threads[t].g != ActiveGen(s.hist)
    ensures Inv(Goto(s, t, th))
  {
    hide RingOk, RecordsOk;
    AddingKept(s.mem.adding, s.mem.adding, s.threads, t, th);
  }

  lemma StepLoadActive(s: State, t: nat)
    requires Inv(s) && t < |s.threads| && s.threads[t].LoadActive?
    ensures Inv(EnqueueStep(s, t))
  {
    hide RingOk, RecordsOk, AddingOk, UnwrittenOk;
    var th := s.threads[t];
    assert ThreadOk(s.mem, s.hist, th, t);
    LocalStep(s, t, LoadSealed(th.c, s.mem.active));
  }

  lemma StepLoadSealed(s: State, t: nat)
    requires Inv(s) && t < |s.threads| && s.threads[t].LoadSealed?
    ensures Inv(EnqueueStep(s, t))
  {
    hide RingOk, RecordsOk, AddingOk, UnwrittenOk;
    var th := s.threads[t];
    assert ThreadOk(s.mem, s.hist, th, t);
    LocalStep(s, t, if s.mem.sealed[th.a] then LoadActive(th.c) else IncAdding(th.c, th.a));
  }

  lemma StepFullRetest(s: State, t: nat)
    requires Inv(s) && t < |s.threads| && s.threads[t].FullRetest?
    ensures Inv(EnqueueStep(s, t))
  {
    hide RingOk, RecordsOk, AddingOk, UnwrittenOk;
    var th := s.threads[t];
    assert ThreadOk(s.mem, s.hist, th, t);
    LocalStep(s, t, if s.mem.active != th.a then LoadActive(th.c) else Drop(th.c));
  }

  /** Passing the recheck puts a producer inside the active generation. */
  lemma RecheckEnters(m: Memory, h: History, c: nat, t: nat)
    requires WellFormed(m, h) && RingOk(m, h) && RecordsOk(m, h)
    requires ThreadOk(m, h, Recheck(c, m.active), t)
    ensures ThreadOk(m, h, RecheckSealed(c, m.active, ActiveGen(h)), t)
  {
    hide SlotsOk, SealedBelow, ClearAbove, LogMatchesIndex, SlotsHold, OutputOk;
    forall b: nat | b in h.before[c]
      ensures b < |h.tickets| && h.tickets[b].Some? && h.tickets[b].value.gen <= ActiveGen(h)
    {
    }
  }

  lemma StepRecheck(s: State, t: nat)
    requires Inv(s) && t < |s.threads| && s.threads[t].Recheck?
    ensures Inv(EnqueueStep(s, t))
  {
    hide RingOk, RecordsOk, AddingOk, UnwrittenOk;
    var m, h, th := s.mem, s.hist, s.threads[t];
    assert ThreadOk(m, h, th, t);
    if m.active == th.a {
      RecheckEnters(m, h, th.c, t);
      LocalStep(s, t, RecheckSealed(th.c, th.a, ActiveGen(h)));
    } else {
      LocalStep(s, t, RecheckMiss(th.c, th.a));
    }
  }

  lemma StepRecheckSealed(s: State, t: nat)
    requires Inv(s) && t < |s.threads| && s.threads[t].RecheckSealed?
    ensures Inv(EnqueueStep(s, t))
  {
    hide RingOk, RecordsOk, AddingOk, UnwrittenOk;
    var th := s.threads[t];
    assert ThreadOk(s.mem, s.hist, th, t);
    LocalStep(s, t, if s.mem.sealed[th.a] then BackOut(th.c, th.a) else TakeSlot(th.c, th.a, th.g));
  }

  lemma StepRecheckMiss(s: State, t: nat)
    requires Inv(s) && t < |s.threads| && s.threads[t].RecheckMiss?
    ensures Inv(EnqueueStep(s, t))
  {
    hide RingOk, RecordsOk, AddingOk, UnwrittenOk;
    var th := s.threads[t];
    assert ThreadOk(s.mem, s.hist, th, t);
    LocalStep(s, t, BackOut(th.c, th.a));
  }

  lemma StepFlushStart(s: State, t: nat)
    requires Inv(s) && t < |s.threads| && (s.threads[t].FlushStart? || s.threads[t].FlushLoadDrain?)
    ensures Inv(FlushStep(s, t))
  {
    hide RingOk, RecordsOk, AddingOk, UnwrittenOk;
    var th := s.threads[t];
    assert ThreadOk(s.mem, s.hist, th, t);
    LocalStep(s, t, if th.FlushStart? then FlushLoadDrain(s.mem.active) else FlushLoadSealed(th.fi, s.mem.drain));
  }

  lemma StepFlushLoadSealed(s: State, t: nat)
    requires Inv(s) && t < |s.threads| && s.threads[t].FlushLoadSealed?
    ensures Inv(FlushStep(s, t))
  {
    hide RingOk, RecordsOk, AddingOk, UnwrittenOk;
    var th := s.threads[t];
    assert ThreadOk(s.mem, s.hist, th, t);
    LocalStep(s, t, if s.mem.sealed[th.d] then FlushWait(th.fi, th.d) else FlushLoadActive(th.fi, th.d));
  }

  lemma StepFlushLoadActive(s: State, t: nat)
    requires Inv(s) && t < |s.threads| && s.threads[t].FlushLoadActive?
    ensures Inv(FlushStep(s, t))
  {
    hide SlotsOk, SealedBelow, ClearAbove, RecordsOk, AddingOk, UnwrittenOk;
    var th := s.threads[t];
    assert ThreadOk(s.mem, s.hist, th, t);
    LocalStep(s, t, FlushLoadIndex(th.fi, th.d, s.mem.active));
  }

  lemma OldestIsSealed(m: Memory, h: History)
    requires RingOk(m, h) && h.freed < ActiveGen(h)
    ensures SealedAt(m.sealed, h.slots, h.freed)
  {
  }

  lemma StepFlushLoadIndex(s: State, t: nat)
    requires Inv(s) && t < |s.threads| && s.threads[t].FlushLoadIndex?
    ensures Inv(FlushStep(s, t))
  {
    hide RingOk, RecordsOk, AddingOk, UnwrittenOk;
    var m, h, th := s.mem, s.hist, s.threads[t];
    assert ThreadOk(m, h, th, t);
    if th.act != th.d {
      OldestIsSealed(m, h);
      LocalStep(s, t, FlushWait(th.fi, th.d));
    } else if m.index[th.d] <= 0 || (th.d != th.fi && m.index[th.d] < m.cap) {
      LocalStep(s, t, FlushEnd);
    } else {
      LocalStep(s, t, Rotate(CheckSealed, th.act, h.freed, InFlush(th.fi)));
    }
  }

  /** The flusher copies one slot. */
  lemma CopyOk(m: Memory, h: History, th: Thread, t: nat)
    requires ThreadOk(m, h, th, t) && th.FlushCopy? && |th.batch| < th.n
    requires SlotHolds(m.items, h.args, h.written, h.log, h.slots, h.freed, |th.batch|)
    ensures th.d < |m.items| && |th.batch| < |m.items[th.d]|
    ensures ThreadOk(m, h, FlushCopy(th.fi, th.d, th.n, th.batch + [m.items[th.d][|th.batch|]]), t)
  {
    var k := |th.batch|;
    assert h.written[h.log[h.freed][k]];
    var all := ItemsOf(h.args, h.log[h.freed]);
    assert all[..k + 1] == all[..k] + [all[k]];
  }

  lemma StepFlushCopy(s: State, t: nat)
    requires Inv(s) && t < |s.threads| && s.threads[t].FlushCopy?
    requires |s.threads[t].batch| < s.threads[t].n
    ensures Inv(FlushStep(s, t))
  {
    hide RingOk, RecordsOk, AddingOk, UnwrittenOk;
    var m, h, th := s.mem, s.hist, s.threads[t];
    assert ThreadOk(m, h, th, t);
    assert SlotHolds(m.items, h.args, h.written, h.log, h.slots, h.freed, |th.batch|);
    CopyOk(m, h, th, t);
    LocalStep(s, t, FlushCopy(th.fi, th.d, th.n, th.batch + [m.items[th.d][|th.batch|]]));
  }

  /** With a full ring the next buffer is the oldest one, which is sealed. */
  lemma FullRingIsSealed(m: Memory, h: History)
    requires WellFormed(m, h) && RingOk(m, h) && |h.log| == |h.slots|
    ensures m.sealed[NextIdx(m.count, m.active)]
  {
    assert SealedAt(m.sealed, h.slots, h.freed);
  }

  /** The buffer a rotation starts from, and what it is when that is the active one. */
  lemma RotateFrom(m: Memory, h: History, th: Thread, t: nat)
    requires RingOk(m, h) && ThreadOk(m, h, th, t) && th.Rotate?
    ensures th.a < m.count && IsSlot(h.slots, th.g, th.a) && h.floor <= th.g <= ActiveGen(h)
    ensures th.a == m.active <==> th.g == ActiveGen(h)
    ensures th.ret.InFlush? ==> th.g == h.freed
    ensures th.a != m.active ==> SealedAt(m.sealed, h.slots, th.g)
  {
  }

  lemma StepCheckSealed(s: State, t: nat)
    requires Inv(s) && t < |s.threads| && s.threads[t].Rotate? && s.threads[t].pc.CheckSealed?
    ensures var th := s.threads[t]; th.a < s.mem.count && Inv(RotateStep(s, t, th.pc, th.a, th.g, th.ret))
  {
    hide RingOk, RecordsOk, AddingOk, UnwrittenOk;
    var m, h, th := s.mem, s.hist, s.threads[t];
    assert ThreadOk(m, h, th, t);
    RotateFrom(m, h, th, t);
    if |h.log| == |h.slots| {
      FullRingIsSealed(m, h);
    }
    LocalStep(s, t, Rotate(if m.sealed[NextIdx(m.count, th.a)] then Retest else CheckIndex, th.a, th.g, th.ret));
  }

  lemma StepOtherChecks(s: State, t: nat)
    requires Inv(s) && t < |s.threads| && s.threads[t].Rotate?
    requires s.threads[t].pc.CheckIndex? || s.threads[t].pc.CheckAdding?
    ensures var th := s.threads[t]; th.a < s.mem.count && Inv(RotateStep(s, t, th.pc, th.a, th.g, th.ret))
  {
    hide RingOk, RecordsOk, AddingOk, UnwrittenOk;
    var m, h, th := s.mem, s.hist, s.threads[t];
    assert ThreadOk(m, h, th, t);
    RotateFrom(m, h, th, t);
    LocalStep(s, t, RotateStep(s, t, th.pc, th.a, th.g, th.ret).threads[t]);
  }

  lemma ResumeOk(m: Memory, h: History, th: Thread, t: nat, rotated: bool)
    requires ThreadOk(m, h, th, t) && th.Rotate?
    requires rotated && th.ret.InFlush? ==> SealedAt(m.sealed, h.slots, h.freed)
    ensures ThreadOk(m, h, Resume(th.ret, th.a, th.g, rotated), t)
    ensures forall i: nat :: Holds(Resume(th.ret, th.a, th.g, rotated), i) == Holds(th, i)
  {
  }

  lemma StepRetest(s: State, t: nat)
    requires Inv(s) && t < |s.threads| && s.threads[t].Rotate? && s.threads[t].pc.Retest?
    ensures var th := s.threads[t]; th.a < s.mem.count && Inv(RotateStep(s, t, th.pc, th.a, th.g, th.ret))
  {
    hide RingOk, RecordsOk, AddingOk, UnwrittenOk;
    var m, h, th := s.mem, s.hist, s.threads[t];
    assert ThreadOk(m, h, th, t);
    RotateFrom(m, h, th, t);
    ResumeOk(m, h, th, t, m.active != th.a);
    LocalStep(s, t, Resume(th.ret, th.a, th.g, m.active != th.a));
  }

  // ------------------------------------------------ entering and leaving a buffer

  lemma AddingIsPrivateTo(m: Memory, adding: seq<int>, h: History, th: Thread, t: nat)
    requires ThreadOk(m, h, th, t)
    ensures ThreadOk(m.(adding := adding), h, th, t)
  {
  }

  /** `adding` of buffer `a` goes up or down by one. */
  lemma AddingStep(s: State, t: nat, a: nat, k: int, th: Thread)
    requires Inv(s) && t < |s.threads| && a < s.mem.count
    requires ThreadOk(s.mem, s.hist, th, t)
    requires !s.threads[t].WriteSlot? && !s.threads[t].Rotate?
    requires forall i: nat ::
               (if Holds(th, i) then 1 else 0) - (if Holds(s.threads[t], i) then 1 else 0) == if i == a then k else 0
    ensures Inv(With(s, s.mem.(adding := Add(s.mem.adding, a, k)), s.hist, t, th))
  {
    hide SlotsOk, SealedBelow, ClearAbove, LogMatchesIndex, SlotsHold, TicketsMatchLog, ResultsOk, OrderOk, OutputOk;
    var m, h := s.mem, s.hist;
    var m' := m.(adding := Add(m.adding, a, k));
    var threads := s.threads[t := th];
    forall u: nat | u < |threads|
      ensures ThreadOk(m', h, threads[u], u)
    {
      AddingIsPrivateTo(m, m'.adding, h, threads[u], u);
    }
    AddingKept(m.adding, m'.adding, s.threads, t, th);
  }

  lemma StepIncAdding(s: State, t: nat)
    requires Inv(s) && t < |s.threads| && s.threads[t].IncAdding?
    ensures Inv(EnqueueStep(s, t))
  {
    hide RingOk, RecordsOk, AddingOk, UnwrittenOk;
    var th := s.threads[t];
    assert ThreadOk(s.mem, s.hist, th, t);
    AddingStep(s, t, th.a, 1, Recheck(th.c, th.a));
  }

  lemma StepBackOut(s: State, t: nat)
    requires Inv(s) && t < |s.threads| && s.threads[t].BackOut?
    ensures Inv(EnqueueStep(s, t))
  {
    hide RingOk, RecordsOk, AddingOk, UnwrittenOk;
    var th := s.threads[t];
    assert ThreadOk(s.mem, s.hist, th, t);
    AddingStep(s, t, th.a, -1, LoadActive(th.c));
  }

  lemma StepLeaveFull(s: State, t: nat)
    requires Inv(s) && t < |s.threads| && s.threads[t].LeaveFull?
    ensures Inv(EnqueueStep(s, t))
  {
    hide RingOk, RecordsOk, AddingOk, UnwrittenOk;
    var th := s.threads[t];
    assert ThreadOk(s.mem, s.hist, th, t);
    AddingStep(s, t, th.a, -1, if th.rotated then LoadActive(th.c) else FullRetest(th.c, th.a));
  }

  // ----------------------------------------------------------------- returning

  lemma {:induction false} FailuresUpdate(results: seq<Option<bool>>, c: nat, r: Option<bool>)
    requires c < |results| && results[c] != Some(false)
    ensures Failures(results[c := r]) == Failures(results) + if r == Some(false) then 1 else 0
  {
    var last := |results| - 1;
    if c == last {
      assert results[c := r][..last] == results[..last];
    } else {
      assert results[c := r][..last] == results[..last][c := r];
      FailuresUpdate(results[..last], c, r);
    }
  }

  lemma ReturnIsPrivateTo(m: Memory, m': Memory, h: History, c: nat, r: bool, th: Thread, t: nat)
    requires m' == m.(adding := m'.adding, discards := m'.discards)
    requires c < |h.owners| && c < |h.results| && h.owners[c] != t && ThreadOk(m, h, th, t)
    ensures ThreadOk(m', h.(results := h.results[c := Some(r)]), th, t)
  {
  }

  lemma ReturnKeepsShared(m: Memory, m': Memory, h: History, c: nat, r: bool)
    requires WellFormed(m, h) && RingOk(m, h) && RecordsOk(m, h) && c < |h.results| && h.results[c].None?
    requires if r then h.tickets[c].Some? && h.written[c] else h.tickets[c].None?
    requires m' == m.(adding := m'.adding, discards := m.discards + if r then 0 else 1) && |m'.adding| == m.count
    ensures var h' := h.(results := h.results[c := Some(r)]);
      WellFormed(m', h') && RingOk(m', h') && RecordsOk(m', h')
  {
    hide SlotsOk, SealedBelow, ClearAbove, LogMatchesIndex, SlotsHold, TicketsMatchLog, OutputOk;
    FailuresUpdate(h.results, c, Some(r));
  }

  /** Call `c` of thread `t` returns `r`. */
  lemma ReturnStep(s: State, t: nat, c: nat, r: bool, m': Memory)
    requires Inv(s) && t < |s.threads| && WorkOk(s.hist, Work(c, if r then Stored else Nothing), t)
    requires InEnqueue(s.threads[t]) && !s.threads[t].WriteSlot?
    requires m' == s.mem.(adding := m'.adding, discards := s.mem.discards + if r then 0 else 1)
    requires |m'.adding| == s.mem.count && AddingOk(m'.adding, s.threads[t := Idle])
    ensures Inv(With(s, m', s.hist.(results := s.hist.results[c := Some(r)]), t, Idle))
  {
    hide RingOk, RecordsOk;
    var m, h := s.mem, s.hist;
    var h' := h.(results := h.results[c := Some(r)]);
    ReturnKeepsShared(m, m', h, c, r);
    assert ThreadOk(m, h, s.threads[t], t);
    var threads := s.threads[t := Idle];
    forall u: nat | u < |threads|
      ensures ThreadOk(m', h', threads[u], u)
    {
      if u != t {
        ReturnIsPrivateTo(m, m', h, c, r, threads[u], u);
      }
    }
  }

  lemma StepLeave(s: State, t: nat)
    requires Inv(s) && t < |s.threads| && s.threads[t].Leave?
    ensures Inv(EnqueueStep(s, t))
  {
    hide RingOk, RecordsOk, AddingOk, UnwrittenOk;
    var m, th := s.mem, s.threads[t];
    assert ThreadOk(m, s.hist, th, t);
    AddingKept(m.adding, Add(m.adding, th.a, -1), s.threads, t, Idle);
    ReturnStep(s, t, th.c, true, m.(adding := Add(m.adding, th.a, -1)));
  }

  lemma StepDrop(s: State, t: nat)
    requires Inv(s) && t < |s.threads| && s.threads[t].Drop?
    ensures Inv(EnqueueStep(s, t))
  {
    hide RingOk, RecordsOk, AddingOk, UnwrittenOk;
    var m, th := s.mem, s.threads[t];
    assert ThreadOk(m, s.hist, th, t);
    AddingKept(m.adding, m.adding, s.threads, t, Idle);
    ReturnStep(s, t, th.c, false, m.(discards := m.discards + 1));
  }

  // --------------------------------------------------------------- taking a slot

  /** A slot of buffer `a` is asked for. */
  lemma TakeKeepsRing(m: Memory, h: History, a: nat, g: nat)
    requires WellFormed(m, h) && RingOk(m, h) && a < m.count
    requires IsSlot(h.slots, g, a) && h.freed <= g <= ActiveGen(h)
    ensures ClearAbove(m.sealed, m.index[a := m.index[a] + 1], h.slots, ActiveGen(h))
    ensures forall k: int {:trigger IndexAt(m.index[a := m.index[a] + 1], h.slots, k)} ::
              h.freed <= k < |h.slots| && k != g ==>
              IndexAt(m.index[a := m.index[a] + 1], h.slots, k) == IndexAt(m.index, h.slots, k)
  {
    hide SealedBelow;
  }

  lemma TakeKeepsLog(index: seq<nat>, index': seq<nat>, cap: nat, log: seq<seq<nat>>, slots: seq<nat>,
                     floor: nat, g: nat, c: nat)
    requires LogMatchesIndex(index, cap, log, slots, floor) && floor <= g < |log|
    requires IndexAt(index, slots, g) < cap && IndexAt(index', slots, g) == IndexAt(index, slots, g) + 1
    requires forall k: int {:trigger IndexAt(index', slots, k)} ::
               floor <= k < |log| && k != g ==> IndexAt(index', slots, k) == IndexAt(index, slots, k)
    ensures LogMatchesIndex(index', cap, log[g := log[g] + [c]], slots, floor)
  {
  }

  lemma TakeKeepsTickets(tickets: seq<Option<Ticket>>, log: seq<seq<nat>>, g: nat, c: nat)
    requires TicketsMatchLog(tickets, log) && c < |tickets| && tickets[c].None? && g < |log|
    ensures TicketsMatchLog(tickets[c := Some(Ticket(g, |log[g]|))], log[g := log[g] + [c]])
  {
  }

  lemma TakeKeepsSlots(m: Memory, h: History, g: nat, c: nat)
    requires SlotsHold(m.items, h.args, h.written, h.log, h.slots, h.floor)
    requires g < |h.log| && g < |h.slots| && h.slots[g] < |m.items| && |h.log[g]| < |m.items[h.slots[g]]|
    requires c < |h.written| && c < |h.args| && !h.written[c]
    ensures SlotsHold(m.items, h.args, h.written, h.log[g := h.log[g] + [c]], h.slots, h.floor)
  {
    var log' := h.log[g := h.log[g] + [c]];
    forall k: int, j: int | h.floor <= k < |log'| && 0 <= j < |log'[k]|
      ensures SlotHolds(m.items, h.args, h.written, log', h.slots, k, j)
    {
      if k != g || j < |h.log[g]| {
        assert SlotHolds(m.items, h.args, h.written, h.log, h.slots, k, j);
      }
    }
  }

  /** The new ticket comes after the tickets of all calls that returned before. */
  lemma TakeKeepsOrder(h: History, g: nat, c: nat)
    requires TicketsMatchLog(h.tickets, h.log) && OrderOk(h.before, h.tickets, h.results)
    requires c < |h.tickets| && h.tickets[c].None? && g < |h.log| && NoLater(h.before, h.tickets, c, g)
    ensures OrderOk(h.before, h.tickets[c := Some(Ticket(g, |h.log[g]|))], h.results)
  {
  }

  function Taken(h: History, c: nat, g: nat): History
    requires c < |h.tickets| && g < |h.log|
  {
    h.(tickets := h.tickets[c := Some(Ticket(g, |h.log[g]|))], log := h.log[g := h.log[g] + [c]])
  }

  lemma TakeKeepsRecords(m: Memory, h: History, th: Thread, t: nat)
    requires WellFormed(m, h) && RingOk(m, h) && RecordsOk(m, h)
    requires th.TakeSlot? && ThreadOk(m, h, th, t) && m.index[th.a] < m.cap
    ensures m.index[th.a] == |h.log[th.g]|
    ensures var m' := m.(index := m.index[th.a := m.index[th.a] + 1]);
      RingOk(m', Taken(h, th.c, th.g)) && RecordsOk(m', Taken(h, th.c, th.g))
  {
    hide SealedBelow, ClearAbove, SlotsHold, OrderOk, TicketsMatchLog;
    var c, a, g := th.c, th.a, th.g;
    assert IndexAt(m.index, h.slots, g) == |h.log[g]|;
    TakeKeepsRing(m, h, a, g);
    TakeKeepsLog(m.index, m.index[a := m.index[a] + 1], m.cap, h.log, h.slots, h.floor, g, c);
    TakeKeepsTickets(h.tickets, h.log, g, c);
    TakeKeepsSlots(m, h, g, c);
    TakeKeepsOrder(h, g, c);
    assert h.log[..h.out] == Taken(h, c, g).log[..h.out];
  }

  lemma TakeIsPrivateToFlusher(m: Memory, h: History, c: nat, a: nat, g: nat, th: Thread)
    requires WellFormed(m, h) && RingOk(m, h) && FlusherOk(m, h, th)
    requires c < |h.tickets| && a < m.count && IsSlot(h.slots, g, a) && h.floor <= g < |h.log|
    ensures FlusherOk(m.(index := m.index[a := m.index[a] + 1]), Taken(h, c, g), th)
  {
    hide SealedBelow, ClearAbove;
    var index', h' := m.index[a := m.index[a] + 1], Taken(h, c, g);
    assert FlusherPhase(h', m.drain, m.count, th);
    if InDrain(th) {
      assert h.slots[h.freed] != h.slots[g];
      assert h'.log[h.freed] == h.log[h.freed];
      assert IndexAt(index', h.slots, h.freed) == IndexAt(m.index, h.slots, h.freed);
      forall j: int | 0 <= j < |h'.log[h.freed]|
        ensures SlotHolds(m.items, h.args, h.written, h'.log, h.slots, h.freed, j) && h.written[h'.log[h.freed][j]]
      {
        assert SlotHolds(m.items, h.args, h.written, h.log, h.slots, h.freed, j);
      }
      assert Complete(m.items, h.args, h.written, h'.log, h.slots, h.freed);
      assert DrainOk(index', m.cap, h.args, h'.log, h.slots, h.freed, th);
    }
  }

  lemma TakeKeepsPlace(h: History, c: nat, g: nat, th: Thread)
    requires c < |h.tickets| && h.tickets[c].None? && h.floor <= g < |h.log|
    ensures PlaceOf(th).Some? && Inside(h, PlaceOf(th).value) ==> Inside(Taken(h, c, g), PlaceOf(th).value)
  {
  }

  lemma TakeKeepsWork(m: Memory, h: History, c: nat, a: nat, g: nat, th: Thread, t: nat)
    requires c < |h.tickets| && c < |h.owners| && h.tickets[c].None? && h.owners[c] != t && a < |m.index| && g < |h.log|
    ensures WorkOf(th).Some? && WorkOk(h, WorkOf(th).value, t) ==> WorkOk(Taken(h, c, g), WorkOf(th).value, t)
    ensures RotateOk(m.sealed, h.slots, ActiveGen(h), th) ==> RotateOk(m.sealed, h.slots, ActiveGen(Taken(h, c, g)), th)
    ensures LocalsOk(m.count, m.cap, |h.args|, |h.log|, th) ==>
              LocalsOk(m.count, m.cap, |h.args|, |Taken(h, c, g).log|, th)
  {
  }

  lemma TakeIsPrivateTo(m: Memory, h: History, c: nat, a: nat, g: nat, th: Thread, t: nat)
    requires WellFormed(m, h) && RingOk(m, h) && ThreadOk(m, h, th, t)
    requires c < |h.tickets| && h.tickets[c].None? && h.owners[c] != t
    requires a < m.count && IsSlot(h.slots, g, a) && h.floor <= g < |h.log|
    ensures ThreadOk(m.(index := m.index[a := m.index[a] + 1]), Taken(h, c, g), th, t)
  {
    hide RingOk, FlusherOk, Inside, WorkOk, RotateOk, LocalsOk;
    TakeKeepsPlace(h, c, g, th);
    TakeKeepsWork(m, h, c, a, g, th, t);
    if IsFlusher(th) {
      TakeIsPrivateToFlusher(m, h, c, a, g, th);
    }
  }

  lemma StepTakeSlot(s: State, t: nat)
    requires Inv(s) && t < |s.threads| && s.threads[t].TakeSlot? && s.threads[t].a < s.mem.count
    requires s.mem.index[s.threads[t].a] < s.mem.cap
    ensures Inv(EnqueueStep(s, t))
  {
    hide RingOk, RecordsOk;
    var m, h, th := s.mem, s.hist, s.threads[t];
    var c, a, g := th.c, th.a, th.g;
    assert ThreadOk(m, h, th, t);
    TakeKeepsRecords(m, h, th, t);
    var m', h' := m.(index := m.index[a := m.index[a] + 1]), Taken(h, c, g);
    var threads := s.threads[t := WriteSlot(c, a, g, m.index[a])];
    forall u: nat | u < |threads|
      ensures ThreadOk(m', h', threads[u], u)
    {
      if u != t {
        TakeIsPrivateTo(m, h, c, a, g, threads[u], u);
      } else {
        TakerMayWrite(m, h, th, t);
      }
    }
    AddingKept(m.adding, m.adding, s.threads, t, threads[t]);
  }

  lemma TakerMayWrite(m: Memory, h: History, th: Thread, t: nat)
    requires WellFormed(m, h) && RecordsOk(m, h) && th.TakeSlot? && ThreadOk(m, h, th, t)
    requires m.index[th.a] == |h.log[th.g]| < m.cap
    ensures ThreadOk(m.(index := m.index[th.a := m.index[th.a] + 1]), Taken(h, th.c, th.g),
                     WriteSlot(th.c, th.a, th.g, m.index[th.a]), t)
  {
    hide LogMatchesIndex, SlotsHold, OrderOk, OutputOk;
  }

  /** The buffer turned out to be full. */
  lemma FullKeepsShared(m: Memory, h: History, a: nat, g: nat)
    requires WellFormed(m, h) && RingOk(m, h) && RecordsOk(m, h) && a < m.count && m.index[a] >= m.cap
    requires IsSlot(h.slots, g, a) && h.floor <= g <= ActiveGen(h)
    ensures RingOk(m.(index := m.index[a := m.index[a] + 1]), h)
    ensures RecordsOk(m.(index := m.index[a := m.index[a] + 1]), h)
  {
    hide SealedBelow, ClearAbove, SlotsHold, TicketsMatchLog, OrderOk, OutputOk, ResultsOk;
    TakeKeepsRing(m, h, a, g);
  }

  lemma FullIsPrivateTo(m: Memory, h: History, a: nat, g: nat, th: Thread, t: nat)
    requires WellFormed(m, h) && RingOk(m, h) && ThreadOk(m, h, th, t)
    requires a < m.count && IsSlot(h.slots, g, a) && h.floor <= g < |h.log|
    ensures ThreadOk(m.(index := m.index[a := m.index[a] + 1]), h, th, t)
  {
    hide SealedBelow, ClearAbove, Complete;
    if InDrain(th) {
      assert h.slots[h.freed] != h.slots[g];
    }
  }

  lemma StepTakeFull(s: State, t: nat)
    requires Inv(s) && t < |s.threads| && s.threads[t].TakeSlot? && s.threads[t].a < s.mem.count
    requires s.mem.index[s.threads[t].a] >= s.mem.cap
    ensures Inv(EnqueueStep(s, t))
  {
    hide RingOk, RecordsOk;
    var m, h, th := s.mem, s.hist, s.threads[t];
    var c, a, g := th.c, th.a, th.g;
    assert ThreadOk(m, h, th, t);
    FullKeepsShared(m, h, a, g);
    var m' := m.(index := m.index[a := m.index[a] + 1]);
    var threads := s.threads[t := Rotate(CheckSealed, a, g, AfterFull(c))];
    forall u: nat | u < |threads|
      ensures ThreadOk(m', h, threads[u], u)
    {
      if u != t {
        FullIsPrivateTo(m, h, a, g, threads[u], u);
      }
    }
    AddingKept(m.adding, m.adding, s.threads, t, threads[t]);
  }

  // -------------------------------------------------------------- writing a slot

  function Put(items: seq<seq<Value>>, a: nat, i: nat, v: Value): seq<seq<Value>>
    requires a < |items| && i < |items[a]|
  {
    items[a := items[a][i := v]]
  }

  lemma WriteKeepsSlots(m: Memory, h: History, c: nat, a: nat, g: nat, i: nat)
    requires WellFormed(m, h) && SlotsOk(m.count, h.slots, h.freed) && TicketsMatchLog(h.tickets, h.log)
    requires SlotsHold(m.items, h.args, h.written, h.log, h.slots, h.floor)
    requires c < |h.tickets| && h.tickets[c] == Some(Ticket(g, i)) && i < m.cap
    requires a < m.count && IsSlot(h.slots, g, a) && h.freed <= h.floor <= g < |h.log| <= |h.slots|
    ensures SlotsHold(Put(m.items, a, i, h.args[c]), h.args, h.written[c := true], h.log, h.slots, h.floor)
  {
    var items', written' := Put(m.items, a, i, h.args[c]), h.written[c := true];
    forall k: int, j: int | h.floor <= k < |h.log| && 0 <= j < |h.log[k]|
      ensures SlotHolds(items', h.args, written', h.log, h.slots, k, j)
    {
      assert SlotHolds(m.items, h.args, h.written, h.log, h.slots, k, j);
      assert h.tickets[h.log[k][j]] == Some(Ticket(k, j));
      assert k != g ==> h.slots[k] != h.slots[g];
    }
  }

  lemma WriteKeepsShared(m: Memory, h: History, th: Thread, t: nat)
    requires WellFormed(m, h) && RingOk(m, h) && RecordsOk(m, h) && th.WriteSlot? && ThreadOk(m, h, th, t)
    ensures var m' := m.(items := Put(m.items, th.a, th.i, h.args[th.c]));
      var h' := h.(written := h.written[th.c := true]);
      WellFormed(m', h') && RingOk(m', h') && RecordsOk(m', h')
  {
    hide SealedBelow, ClearAbove, LogMatchesIndex, SlotsHold, OrderOk, OutputOk;
    WriteKeepsSlots(m, h, th.c, th.a, th.g, th.i);
  }

  lemma WriteIsPrivateToFlusher(m: Memory, h: History, c: nat, a: nat, g: nat, i: nat, th: Thread)
    requires WellFormed(m, h) && SlotsOk(m.count, h.slots, h.freed) && FlusherOk(m, h, th)
    requires c < |h.args| && i < m.cap
    requires a < m.count && IsSlot(h.slots, g, a) && h.floor <= g < |h.log| <= |h.slots|
    ensures FlusherOk(m.(items := Put(m.items, a, i, h.args[c])), h.(written := h.written[c := true]), th)
  {
    if InDrain(th) {
      assert h.slots[h.freed] != h.slots[g];
      var items', written' := Put(m.items, a, i, h.args[c]), h.written[c := true];
      forall j: int | 0 <= j < |h.log[h.freed]|
        ensures SlotHolds(items', h.args, written', h.log, h.slots, h.freed, j)
      {
        assert SlotHolds(m.items, h.args, h.written, h.log, h.slots, h.freed, j);
      }
    }
  }

  lemma WriteIsPrivateTo(m: Memory, h: History, c: nat, a: nat, g: nat, i: nat, th: Thread, t: nat)
    requires WellFormed(m, h) && RingOk(m, h) && ThreadOk(m, h, th, t)
    requires c < |h.args| && h.owners[c] != t && i < m.cap
    requires a < m.count && IsSlot(h.slots, g, a) && h.floor <= g < |h.log|
    ensures ThreadOk(m.(items := Put(m.items, a, i, h.args[c])), h.(written := h.written[c := true]), th, t)
  {
    hide SealedBelow, ClearAbove, SlotsOk, FlusherOk;
    if IsFlusher(th) {
      WriteIsPrivateToFlusher(m, h, c, a, g, i, th);
    }
  }

  lemma StepWriteSlot(s: State, t: nat)
    requires Inv(s) && t < |s.threads| && s.threads[t].WriteSlot?
    ensures Inv(EnqueueStep(s, t))
  {
    hide RingOk, RecordsOk;
    var m, h, th := s.mem, s.hist, s.threads[t];
    var c, a, g, i := th.c, th.a, th.g, th.i;
    assert ThreadOk(m, h, th, t);
    WriteKeepsShared(m, h, th, t);
    var m', h' := m.(items := Put(m.items, a, i, h.args[c])), h.(written := h.written[c := true]);
    var threads := s.threads[t := if i == m.cap - 1 then Rotate(CheckSealed, a, g, AfterWrite(c)) else Leave(c, a, g)];
    forall u: nat | u < |threads|
      ensures ThreadOk(m', h', threads[u], u)
    {
      if u != t {
        WriteIsPrivateTo(m, h, c, a, g, i, threads[u], u);
      }
    }
    AddingKept(m.adding, m.adding, s.threads, t, threads[t]);
  }
}
