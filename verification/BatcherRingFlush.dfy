/**
 What a flush achieves, in every interleaving: it goes on until everything is emitted that was
 accepted before it began, unless its rotation of the ring is refused.  That happens only while a
 producer is counted in the next buffer by mistake and about to leave it.
 */
module BatcherRingFlush {
  import opened Prelude
  import opened BatcherRing
  import opened BatcherRingInvariant
  import opened BatcherRingTheorems

  // --------------------------------------------------------------------- what only grows

  /** How the history may change: logs, slots and counters grow, and a ticket or a result stays. */
  ghost predicate Grows(h: History, h': History) {
    && |h.log| <= |h'.log| && (forall g :: 0 <= g < |h.log| ==> h.log[g] <= h'.log[g])
    && h.slots <= h'.slots && h.freed <= h'.freed && h.args <= h'.args
    && |h.tickets| <= |h'.tickets| && |h.results| <= |h'.results|
    && (forall c :: 0 <= c < |h.tickets| && h.tickets[c].Some? ==> h'.tickets[c] == h.tickets[c])
    && (forall c :: 0 <= c < |h.results| && h.results[c].Some? ==> h'.results[c] == h.results[c])
  }

  lemma EnqueueGrows(s: State, t: nat)
    requires Inv(s) && t < |s.threads| && InEnqueue(s.threads[t])
    ensures LocalsOk(s.mem.count, s.mem.cap, |s.hist.args|, |s.hist.log|, s.threads[t])
    ensures Grows(s.hist, EnqueueStep(s, t).hist)
  {
    hide RingOk, RecordsOk, AddingOk, UnwrittenOk, WindowOk;
    assert ThreadOk(s.mem, s.hist, s.threads[t], t);
    hide Inside, FlusherOk, RotateOk;
  }

  lemma StepGrows(s: State, t: nat, ch: Choice)
    requires Inv(s) && t < |s.threads|
    ensures LocalsOk(s.mem.count, s.mem.cap, |s.hist.args|, |s.hist.log|, s.threads[t])
    ensures Grows(s.hist, Step(s, t, ch).hist)
  {
    hide RingOk, RecordsOk, AddingOk, UnwrittenOk, WindowOk;
    assert ThreadOk(s.mem, s.hist, s.threads[t], t);
    if InEnqueue(s.threads[t]) {
      EnqueueGrows(s, t);
    } else if InFlushCall(s.threads[t]) {
      FlushGrows(s, t);
    }
    hide EnqueueStep, FlushStep, FlusherOk, Inside, WorkOk, RotateOk;
  }

  lemma FlushGrows(s: State, t: nat)
    requires WellFormed(s.mem, s.hist) && t < |s.threads| && InFlushCall(s.threads[t])
    requires LocalsOk(s.mem.count, s.mem.cap, |s.hist.args|, |s.hist.log|, s.threads[t])
    ensures Grows(s.hist, FlushStep(s, t).hist)
  {
  }

  lemma GrowsOn(a: History, b: History, c: History)
    requires Grows(a, b) && Grows(b, c)
    ensures Grows(a, c)
  {
    forall g | 0 <= g < |a.log| ensures a.log[g] <= c.log[g] { assert a.log[g] <= b.log[g] <= c.log[g]; }
  }

  // ------------------------------------------------------------------- a flush in progress

  /** What the flusher knows since it began while generation `g0` was active. */
  predicate FlushAt(h: History, th: Thread, g0: nat)
    requires g0 < |h.slots|
  {
    var fi := h.slots[g0];
    match th
    case FlushLoadDrain(f) => f == fi
    case FlushLoadSealed(f, _) => f == fi
    case FlushLoadActive(f, _) => f == fi
    case FlushLoadIndex(f, d, act) => f == fi && (act == d ==> g0 <= h.freed)
    case Rotate(_, _, _, InFlush(f)) => f == fi && g0 <= h.freed < |h.log| && h.log[h.freed] != []
    case FlushWait(f, _) => f == fi
    case FlushTake(f, _) => f == fi
    case FlushCopy(f, _, _, _) => f == fi
    case FlushUnseal(f, _) => f == fi
    case FlushAdvance(f, _) => f == fi
    case FlushEnd => g0 <= h.freed
    case _ => false
  }

  ghost predicate FlushGoes(s: State, t: nat, g0: nat) {
    && t < |s.threads| && s.hist.flusher == Some(t)
    && g0 <= ActiveGen(s.hist) && g0 < |s.hist.slots| && FlushAt(s.hist, s.threads[t], g0)
  }

  /** The rotation for the flush is over and its buffer is still the active one. */
  predicate Refused(s: State, t: nat) {
    && t < |s.threads| && s.threads[t].Rotate? && s.threads[t].pc.Retest? && s.threads[t].ret.InFlush?
    && s.mem.active == s.threads[t].a
  }

  lemma FlushBegins(s: State, t: nat, ch: Choice)
    requires Inv(s) && t < |s.threads| && s.threads[t].FlushStart?
    ensures FlushGoes(Step(s, t, ch), t, ActiveGen(s.hist))
  {
    hide RecordsOk, AddingOk, UnwrittenOk, WindowOk;
    assert ThreadOk(s.mem, s.hist, s.threads[t], t);
  }

  /** A step of somebody else. */
  lemma OthersLetItGo(s: State, t: nat, g0: nat, u: nat, ch: Choice)
    requires Inv(s) && FlushGoes(s, t, g0) && u < |s.threads| && u != t
    ensures LocalsOk(s.mem.count, s.mem.cap, |s.hist.args|, |s.hist.log|, s.threads[u])
    ensures FlushGoes(Step(s, u, ch), t, g0)
  {
    hide RecordsOk, AddingOk, UnwrittenOk, WindowOk, FlushAt;
    assert ThreadOk(s.mem, s.hist, s.threads[u], u);
    StepGrows(s, u, ch);
    OthersLeaveThePhase(s, u, ch);
    OnlyItself(s, u, ch, t);
    FlushAtGrows(s.hist, Step(s, u, ch).hist, s.threads[t], g0);
    hide Step;
  }

  lemma OthersLeaveThePhase(s: State, u: nat, ch: Choice)
    requires Inv(s) && u < |s.threads| && !IsFlusher(s.threads[u]) && s.mem.flushing
    requires LocalsOk(s.mem.count, s.mem.cap, |s.hist.args|, |s.hist.log|, s.threads[u])
    ensures var h' := Step(s, u, ch).hist;
            h'.flusher == s.hist.flusher && h'.freed == s.hist.freed && h'.slots == s.hist.slots
  {
    hide RingOk, RecordsOk, AddingOk, UnwrittenOk, WindowOk, ThreadsOk;
  }

  lemma FlushAtGrows(h: History, h': History, th: Thread, g0: nat)
    requires g0 < |h.slots| && FlushAt(h, th, g0) && Grows(h, h') && h'.freed == h.freed && h'.slots == h.slots
    ensures FlushAt(h', th, g0)
  {
  }

  /** A step of the flush itself. */
  lemma OwnStepGoesOn(s: State, t: nat, g0: nat, ch: Choice)
    requires Inv(s) && FlushGoes(s, t, g0) && !s.threads[t].FlushEnd?
    ensures FlushGoes(Step(s, t, ch), t, g0)
  {
    hide RecordsOk, AddingOk, UnwrittenOk, WindowOk;
    assert ThreadOk(s.mem, s.hist, s.threads[t], t);
    if s.threads[t].Rotate? {
      OwnRotationGoesOn(s, t, g0, ch);
    } else {
      OwnFlushGoesOn(s, t, g0, ch);
    }
  }

  lemma OwnRotationGoesOn(s: State, t: nat, g0: nat, ch: Choice)
    requires Inv(s) && FlushGoes(s, t, g0) && s.threads[t].Rotate?
    ensures FlushGoes(Step(s, t, ch), t, g0)
  {
    hide RingOk, RecordsOk, AddingOk, UnwrittenOk, WindowOk, WorkOk, Inside, FlusherOk, EnqueueStep, FlushStep,
        IdleStep;
    assert ThreadOk(s.mem, s.hist, s.threads[t], t);
  }

  lemma OldestHasItems(s: State)
    requires Inv(s) && s.hist.floor == s.hist.freed && IsSlot(s.hist.slots, s.hist.freed, s.mem.drain)
    ensures s.hist.freed < |s.hist.log|
    ensures s.mem.index[s.mem.drain] > 0 <==> s.hist.log[s.hist.freed] != []
  {
    hide AddingOk, UnwrittenOk, WindowOk, ThreadsOk, SlotsHold, TicketsMatchLog, OrderOk, OutputOk, ResultsOk;
    assert IndexAt(s.mem.index, s.hist.slots, s.hist.freed) == s.mem.index[s.mem.drain];
  }

  predicate Loads(th: Thread) {
    th.FlushLoadDrain? || th.FlushLoadSealed? || th.FlushLoadActive? || th.FlushLoadIndex?
  }

  lemma OwnLoadGoesOn(s: State, t: nat, g0: nat, ch: Choice)
    requires Inv(s) && FlushGoes(s, t, g0) && Loads(s.threads[t])
    ensures FlushGoes(Step(s, t, ch), t, g0)
  {
    hide RecordsOk, AddingOk, UnwrittenOk, WindowOk, SealedBelow, ClearAbove, WorkOk, Inside, RotateOk,
         EnqueueStep, RotateStep, IdleStep;
    assert ThreadOk(s.mem, s.hist, s.threads[t], t);
    var h, th := s.hist, s.threads[t];
    if th.FlushLoadIndex? {
      OldestHasItems(s);
    } else if th.FlushLoadActive? {
      assert h.slots[ActiveGen(h)] == s.mem.active && h.slots[h.freed] == th.d;
      assert s.mem.active == th.d ==> h.freed == ActiveGen(h);
    }
    hide SlotsOk;
  }

  lemma OwnDrainGoesOn(s: State, t: nat, g0: nat, ch: Choice)
    requires Inv(s) && FlushGoes(s, t, g0) && (s.threads[t].FlushWait? || InDrain(s.threads[t])
             || s.threads[t].FlushAdvance?)
    ensures FlushGoes(Step(s, t, ch), t, g0)
  {
    hide RingOk, RecordsOk, AddingOk, UnwrittenOk, WindowOk, WorkOk, Inside, RotateOk, FlusherOk,
         EnqueueStep, RotateStep, IdleStep;
    assert ThreadOk(s.mem, s.hist, s.threads[t], t);
  }

  lemma OwnFlushGoesOn(s: State, t: nat, g0: nat, ch: Choice)
    requires Inv(s) && FlushGoes(s, t, g0) && InFlushCall(s.threads[t]) && !s.threads[t].FlushEnd?
    ensures FlushGoes(Step(s, t, ch), t, g0)
  {
    hide Inv, Step;
    if Loads(s.threads[t]) {
      OwnLoadGoesOn(s, t, g0, ch);
    } else {
      OwnDrainGoesOn(s, t, g0, ch);
    }
  }

  // ---------------------------------------------------------------------------- how it ends

  /** The oldest buffer was active and is empty, or is a later one than the flush is for. */
  predicate StopsHere(s: State, t: nat) {
    && t < |s.threads| && s.threads[t].FlushLoadIndex? && s.threads[t].act == s.threads[t].d < |s.mem.index|
    && (s.mem.index[s.threads[t].d] <= 0 || s.threads[t].d != s.threads[t].fi)
  }

  /** A flush decides to end where it reads the index of its buffer, or where its rotation fails. */
  lemma EndsThere(s: State, t: nat, ch: Choice)
    requires WellFormed(s.mem, s.hist) && t < |s.threads| && IsFlusher(s.threads[t]) && !s.threads[t].FlushEnd?
    requires LocalsOk(s.mem.count, s.mem.cap, |s.hist.args|, |s.hist.log|, s.threads[t])
    requires Step(s, t, ch).threads[t].FlushEnd?
    ensures Step(s, t, ch).hist == s.hist
    ensures Refused(s, t) || StopsHere(s, t)
  {
    hide EnqueueStep, IdleStep;
  }

  /** A flush ends with its generation drained, or with nothing in it, exactly unless its rotation
      was refused in that generation. */
  lemma EndDelivers(s: State, t: nat, g0: nat)
    requires Inv(s) && FlushGoes(s, t, g0) && (Refused(s, t) || StopsHere(s, t))
    ensures var h := s.hist;
            && h.freed >= g0 && g0 < |h.log|
            && (h.freed > g0 || h.log[g0] == [] <==> !(Refused(s, t) && h.freed == g0))
  {
    hide AddingOk, UnwrittenOk, WindowOk, SealedBelow, ClearAbove, RecordsOk, SlotsOk;
    assert ThreadOk(s.mem, s.hist, s.threads[t], t);
    if s.threads[t].FlushLoadIndex? {
      OldestHasItems(s);
    }
  }

  /** A producer that was led to a buffer by an old index, and is about to notice and leave. */
  predicate Stray(th: Thread, a: nat) {
    (th.Recheck? || th.RecheckMiss? || th.BackOut?) && th.a == a
  }

  /** A rotation for a flush comes to an end with its buffer still active only if a stray producer
      was counted in the next buffer when it looked. */
  lemma RefusedByAStray(s: State, t: nat, ch: Choice)
    requires Inv(s) && t < |s.threads| && s.threads[t].Rotate? && s.threads[t].ret.InFlush?
    requires s.threads[t].a < s.mem.count && Refused(Step(s, t, ch), t)
    ensures s.threads[t].pc.CheckAdding?
    ensures exists u: nat :: u < |s.threads| && Stray(s.threads[u], NextIdx(s.mem.count, s.threads[t].a))
  {
    hide RecordsOk, UnwrittenOk, WindowOk;
    var m, h, th := s.mem, s.hist, s.threads[t];
    var next := NextIdx(m.count, th.a);
    assert ThreadOk(m, h, th, t);
    assert h.slots[ActiveGen(h)] == m.active;
    NextIsClear(m, h);
    assert th.pc.CheckAdding? && m.adding[next] != 0;
    assert m.adding[next] == |Holders(s.threads, next)|;
    var u: nat :| u in Holders(s.threads, next);
    assert ThreadOk(m, h, s.threads[u], u);
    HolderIsAStray(h, s.threads[u], next);
  }

  lemma NextIsClear(m: Memory, h: History)
    requires WellFormed(m, h) && RingOk(m, h) && ActiveGen(h) == h.freed
    ensures h.freed + 1 < |h.slots| && h.slots[h.freed + 1] == NextIdx(m.count, m.active) != m.active
    ensures !m.sealed[NextIdx(m.count, m.active)] && m.index[NextIdx(m.count, m.active)] == 0
  {
    hide SealedBelow;
    assert !SealedAt(m.sealed, h.slots, h.freed + 1) && IndexAt(m.index, h.slots, h.freed + 1) == 0;
  }

  lemma HolderIsAStray(h: History, th: Thread, next: nat)
    requires Holds(th, next) && (PlaceOf(th).Some? ==> Inside(h, PlaceOf(th).value))
    requires h.floor == h.freed == ActiveGen(h) && IsSlot(h.slots, h.freed + 1, next)
    requires h.slots[h.freed] != next
    ensures Stray(th, next)
  {
  }

  // ---------------------------------------------------------------------------- whole runs

  /** Thread `t` begins a flush at state `i` of the run and is through with it at state `j`. */
  ghost predicate IsFlush(run: seq<State>, t: nat, i: nat, j: nat) {
    && i + 1 < j < |run|
    && (forall k :: i <= k <= j ==> t < |run[k].threads| && run[k].hist.flusher == Some(t))
    && run[i].threads[t].FlushStart? && !run[i + 1].threads[t].FlushStart?
    && (forall k :: i < k < j ==> !run[k].threads[t].FlushEnd?)
    && run[j].threads[t].FlushEnd?
  }

  lemma NextIsAStep(s: State, s': State) returns (u: nat, ch: Choice)
    requires Next(s, s')
    ensures WellFormed(s.mem, s.hist) && u < |s.threads|
    ensures LocalsOk(s.mem.count, s.mem.cap, |s.hist.args|, |s.hist.log|, s.threads[u])
    ensures s' == Step(s, u, ch)
  {
    hide Step;
    u, ch :| u < |s.threads| && LocalsOk(s.mem.count, s.mem.cap, |s.hist.args|, |s.hist.log|, s.threads[u])
             && s' == Step(s, u, ch);
  }

  lemma {:induction false} RunGrows(
    run: seq<State>, count: nat, cap: nat, items: seq<seq<Value>>, threads: nat, i: nat, j: nat)
    requires IsRun(run, count, cap, items, threads) && i <= j < |run|
    ensures Grows(run[i].hist, run[j].hist)
  {
    hide Inv, Step;
    if i == j {
      hide IsRun;
    } else {
      RunGrows(run, count, cap, items, threads, i, j - 1);
      RunKeepsInv(run, count, cap, items, threads, j - 1);
      assert Next(run[j - 1], run[j]);
      hide IsRun, Grows;
      var u, ch := NextIsAStep(run[j - 1], run[j]);
      StepGrows(run[j - 1], u, ch);
      GrowsOn(run[i].hist, run[j - 1].hist, run[j].hist);
    }
  }

  lemma OnlyItself(s: State, u: nat, ch: Choice, t: nat)
    requires WellFormed(s.mem, s.hist) && u < |s.threads| && t < |s.threads| && t != u
    requires LocalsOk(s.mem.count, s.mem.cap, |s.hist.args|, |s.hist.log|, s.threads[u])
    ensures t < |Step(s, u, ch).threads| && Step(s, u, ch).threads[t] == s.threads[t]
  {
  }

  lemma {:induction false} FlushGoesOn(
    run: seq<State>, count: nat, cap: nat, items: seq<seq<Value>>, threads: nat, t: nat, i: nat, j: nat, k: nat)
    requires IsRun(run, count, cap, items, threads) && IsFlush(run, t, i, j) && i < k < j
    ensures FlushGoes(run[k], t, ActiveGen(run[i].hist))
    decreases k
  {
    hide Inv, Step, FlushGoes;
    RunKeepsInv(run, count, cap, items, threads, k - 1);
    assert Next(run[k - 1], run[k]);
    hide IsRun;
    var u, ch := NextIsAStep(run[k - 1], run[k]);
    if u != t {
      OnlyItself(run[k - 1], u, ch, t);
    }
    if k == i + 1 {
      FlushBegins(run[i], t, ch);
      SomethingIsActive(run[i]);
    } else {
      FlushGoesOn(run, count, cap, items, threads, t, i, j, k - 1);
      if u == t {
        OwnStepGoesOn(run[k - 1], t, ActiveGen(run[i].hist), ch);
      } else {
        OthersLetItGo(run[k - 1], t, ActiveGen(run[i].hist), u, ch);
      }
    }
  }

  lemma SomethingIsActive(s: State)
    requires Inv(s)
    ensures ActiveGen(s.hist) >= 0
  {
  }

  /** What every flush of every run achieves: no generation that was open before it began is left,
      and of the one that was active then all is emitted, exactly unless the rotation was refused
      in that generation. */
  lemma {:induction false} FlushDrains(
    run: seq<State>, count: nat, cap: nat, items: seq<seq<Value>>, threads: nat, t: nat, i: nat, j: nat)
    requires IsRun(run, count, cap, items, threads) && IsFlush(run, t, i, j)
    ensures var g0, h := ActiveGen(run[i].hist), run[j].hist;
            && 0 <= g0 <= h.freed <= h.out && g0 < |h.log|
            && (h.freed > g0 || h.log[g0] == [] <==> !(Refused(run[j - 1], t) && h.freed == g0))
  {
    hide Inv, Step, FlushGoes, Refused, StopsHere;
    FlushGoesOn(run, count, cap, items, threads, t, i, j, j - 1);
    RunKeepsInv(run, count, cap, items, threads, i);
    RunKeepsInv(run, count, cap, items, threads, j);
    RunKeepsInv(run, count, cap, items, threads, j - 1);
    assert Next(run[j - 1], run[j]);
    hide IsRun;
    SomethingIsActive(run[i]);
    OutIsPast(run[j]);
    var u, ch := NextIsAStep(run[j - 1], run[j]);
    if u != t {
      OnlyItself(run[j - 1], u, ch, t);
    }
    FlusherSteps(run[j - 1], t);
    EndsThere(run[j - 1], t, ch);
    EndDelivers(run[j - 1], t, ActiveGen(run[i].hist));
  }

  lemma FlusherSteps(s: State, t: nat)
    requires Inv(s) && t < |s.threads| && s.hist.flusher == Some(t)
    ensures IsFlusher(s.threads[t])
  {
    assert ThreadOk(s.mem, s.hist, s.threads[t], t);
    hide RingOk, RecordsOk, AddingOk, UnwrittenOk, WindowOk;
  }

  lemma OutIsPast(s: State)
    requires Inv(s)
    ensures s.hist.freed <= s.hist.out <= |s.hist.log|
  {
    hide RecordsOk, ThreadsOk, SlotsOk, SealedBelow, ClearAbove, AddingOk, UnwrittenOk, WindowOk;
  }

  /** An item of a generation that was emitted is in the emitted batches, at its place. */
  lemma OutIsEmitted(s: State, c: nat)
    requires Inv(s) && c < |s.hist.tickets| && s.hist.tickets[c].Some? && s.hist.tickets[c].value.gen < s.hist.out
    ensures var h := s.hist;
            && c < |h.args| && h.tickets[c].value.gen < |h.log|
            && var p := Position(h.log, h.tickets[c].value);
               p < |Concat(s.mem.emitted)| && Concat(s.mem.emitted)[p] == h.args[c]
  {
    hide RingOk, ThreadsOk, AddingOk, UnwrittenOk, WindowOk, LogMatchesIndex, SlotsHold, OrderOk, ResultsOk;
    var h := s.hist;
    var k, log := h.tickets[c].value, h.log[..h.out];
    StreamOfQueue(h.args, log);
    PositionsFollowTickets(log, k, k);
    assert log[..k.gen] == h.log[..k.gen];
  }

  /** Every flush of every run emits what was accepted before it began, unless its rotation was
      refused. */
  lemma {:induction false} FlushDelivers(
    run: seq<State>, count: nat, cap: nat, items: seq<seq<Value>>, threads: nat, t: nat, i: nat, j: nat, c: nat)
    requires IsRun(run, count, cap, items, threads) && IsFlush(run, t, i, j) && !Refused(run[j - 1], t)
    requires c < |run[i].hist.results| && run[i].hist.results[c] == Some(true)
    ensures var m, h := run[j].mem, run[j].hist;
            && c < |h.args| && c < |h.tickets| && h.tickets[c].Some? && h.tickets[c].value.gen < |h.log|
            && var p := Position(h.log, h.tickets[c].value);
               p < |Concat(m.emitted)| && Concat(m.emitted)[p] == h.args[c]
  {
    hide Inv, Step, IsFlush;
    FlushDrains(run, count, cap, items, threads, t, i, j);
    assert i <= j < |run| by { FlushIsInRun(run, t, i, j); }
    RunGrows(run, count, cap, items, threads, i, j);
    RunKeepsInv(run, count, cap, items, threads, i);
    RunKeepsInv(run, count, cap, items, threads, j);
    hide IsRun;
    TicketIsOpen(run[i], c);
    TicketIsOpen(run[j], c);
    OutIsEmitted(run[j], c);
  }

  lemma FlushIsInRun(run: seq<State>, t: nat, i: nat, j: nat)
    requires IsFlush(run, t, i, j)
    ensures i < j < |run|
  {
  }

  /** The ticket of an accepted call is of a generation up to the active one, and in its log. */
  lemma TicketIsOpen(s: State, c: nat)
    requires Inv(s) && c < |s.hist.results| && s.hist.results[c] == Some(true)
    ensures c < |s.hist.tickets| && s.hist.tickets[c].Some?
    ensures var k := s.hist.tickets[c].value; k.gen <= ActiveGen(s.hist) && s.hist.log[k.gen] != []
  {
    hide RingOk, ThreadsOk, AddingOk, UnwrittenOk, WindowOk, LogMatchesIndex, SlotsHold, OrderOk, OutputOk;
  }
}
