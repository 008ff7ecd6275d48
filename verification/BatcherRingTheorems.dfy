/**
 What every run of the buffer ring guarantees: it is a first-in first-out queue that
 accepts an item exactly once or rejects it with one recorded discard, and the flusher
 never reads a slot that is not written.
 */
module BatcherRingTheorems {
  import opened Prelude
  import opened BatcherRing
  import opened BatcherRingInvariant
  import opened BatcherRingSteps
  import opened BatcherRingRotation

  // ------------------------------------------------------------------------ runs

  /** Some thread takes a step. */
  ghost predicate Next(s: State, s': State) {
    && WellFormed(s.mem, s.hist)
    && exists t: nat, ch: Choice ::
         && t < |s.threads| && LocalsOk(s.mem.count, s.mem.cap, |s.hist.args|, |s.hist.log|, s.threads[t])
         && s' == Step(s, t, ch)
  }

  ghost predicate IsRun(run: seq<State>, count: nat, cap: nat, items: seq<seq<Value>>, threads: nat) {
    && count >= 2 && cap >= 1
    && |items| == count && (forall i :: 0 <= i < count ==> |items[i]| == cap)
    && |run| > 0 && run[0] == InitState(count, cap, items, threads)
    && forall i :: 0 <= i < |run| - 1 ==> Next(run[i], run[i + 1])
  }

  lemma InitRing(count: nat, cap: nat, items: seq<seq<Value>>, threads: nat)
    requires count >= 2 && cap >= 1
    requires |items| == count && (forall i :: 0 <= i < count ==> |items[i]| == cap)
    ensures var s := InitState(count, cap, items, threads);
            WellFormed(s.mem, s.hist) && RingOk(s.mem, s.hist) && RecordsOk(s.mem, s.hist)
  {
  }

  lemma InitThreads(count: nat, cap: nat, items: seq<seq<Value>>, threads: nat)
    requires count >= 2 && cap >= 1
    ensures var s := InitState(count, cap, items, threads);
            && ThreadsOk(s.mem, s.hist, s.threads) && AddingOk(s.mem.adding, s.threads)
            && UnwrittenOk(s.hist.owners, s.hist.tickets, s.hist.written, s.threads)
            && WindowOk(s.mem.sealed, s.mem.active, ActiveGen(s.hist), s.hist.sealer, s.threads)
  {
    var s := InitState(count, cap, items, threads);
    forall i: nat | i < count
      ensures Holders(s.threads, i) == {}
    {
    }
  }

  lemma InitHolds(count: nat, cap: nat, items: seq<seq<Value>>, threads: nat)
    requires count >= 2 && cap >= 1
    requires |items| == count && (forall i :: 0 <= i < count ==> |items[i]| == cap)
    ensures Inv(InitState(count, cap, items, threads))
  {
    hide WellFormed, RingOk, RecordsOk, ThreadsOk, AddingOk, UnwrittenOk, WindowOk;
    InitRing(count, cap, items, threads);
    InitThreads(count, cap, items, threads);
  }

  lemma EnqueueStepKeepsInv(s: State, t: nat)
    requires Inv(s) && t < |s.threads| && InEnqueue(s.threads[t])
    ensures Inv(EnqueueStep(s, t))
  {
    hide RingOk, RecordsOk, AddingOk, UnwrittenOk, WindowOk;
    assert ThreadOk(s.mem, s.hist, s.threads[t], t);
    match s.threads[t]
    case LoadActive(c) => StepLoadActive(s, t);
    case LoadSealed(c, a) => StepLoadSealed(s, t);
    case IncAdding(c, a) => StepIncAdding(s, t);
    case Recheck(c, a) => StepRecheck(s, t);
    case RecheckSealed(c, a, g) => StepRecheckSealed(s, t);
    case RecheckMiss(c, a) => StepRecheckMiss(s, t);
    case BackOut(c, a) => StepBackOut(s, t);
    case TakeSlot(c, a, g) =>
      if s.mem.index[a] < s.mem.cap { StepTakeSlot(s, t); } else { StepTakeFull(s, t); }
    case WriteSlot(c, a, g, i) => StepWriteSlot(s, t);
    case Leave(c, a, g) => StepLeave(s, t);
    case LeaveFull(c, a, g, rotated) => StepLeaveFull(s, t);
    case FullRetest(c, a) => StepFullRetest(s, t);
    case Drop(c) => StepDrop(s, t);
  }

  lemma FlushStepKeepsInv(s: State, t: nat)
    requires Inv(s) && t < |s.threads| && InFlushCall(s.threads[t])
    ensures Inv(FlushStep(s, t))
  {
    hide RingOk, RecordsOk, AddingOk, UnwrittenOk, WindowOk;
    match s.threads[t]
    case FlushStart => StepFlushStart(s, t);
    case FlushLoadDrain(fi) => StepFlushStart(s, t);
    case FlushLoadSealed(fi, d) => StepFlushLoadSealed(s, t);
    case FlushLoadActive(fi, d) => StepFlushLoadActive(s, t);
    case FlushLoadIndex(fi, d, act) => StepFlushLoadIndex(s, t);
    case FlushWait(fi, d) => StepFlushWait(s, t);
    case FlushTake(fi, d) => StepFlushTake(s, t);
    case FlushCopy(fi, d, n, batch) =>
      if |batch| < n { StepFlushCopy(s, t); } else { StepFlushEmit(s, t); }
    case FlushUnseal(fi, d) => StepFlushUnseal(s, t);
    case FlushAdvance(fi, d) => StepFlushAdvance(s, t);
    case FlushEnd => StepFlushEnd(s, t);
  }

  /** Every step of every thread keeps the invariant. */
  lemma StepKeepsInv(s: State, t: nat, ch: Choice)
    requires Inv(s) && t < |s.threads|
    ensures WellFormed(s.mem, s.hist)
    ensures LocalsOk(s.mem.count, s.mem.cap, |s.hist.args|, |s.hist.log|, s.threads[t])
    ensures Inv(Step(s, t, ch))
  {
    hide RingOk, RecordsOk, AddingOk, UnwrittenOk, WindowOk;
    var th := s.threads[t];
    assert ThreadOk(s.mem, s.hist, th, t);
    if th.Idle? {
      if ch.Flush? { StepBeginFlush(s, t); } else { StepBeginEnqueue(s, t, ch.item); }
    } else if th.Rotate? {
      match th.pc
      case CheckSealed => StepCheckSealed(s, t);
      case CheckIndex => StepOtherChecks(s, t);
      case CheckAdding => StepOtherChecks(s, t);
      case Seal => StepSeal(s, t);
      case Swap => StepSwap(s, t);
      case Retest => StepRetest(s, t);
    } else if InEnqueue(th) {
      EnqueueStepKeepsInv(s, t);
    } else {
      FlushStepKeepsInv(s, t);
    }
  }

  lemma {:induction false} RunKeepsInv(
    run: seq<State>, count: nat, cap: nat, items: seq<seq<Value>>, threads: nat, i: nat)
    requires IsRun(run, count, cap, items, threads) && i < |run|
    ensures Inv(run[i])
  {
    if i == 0 {
      InitHolds(count, cap, items, threads);
    } else {
      RunKeepsInv(run, count, cap, items, threads, i - 1);
      hide Inv, IsRun;
      assert Next(run[i - 1], run[i]);
      var s := run[i - 1];
      var t: nat, ch :|
        && t < |s.threads| && LocalsOk(s.mem.count, s.mem.cap, |s.hist.args|, |s.hist.log|, s.threads[t])
        && run[i] == Step(s, t, ch);
      StepKeepsInv(s, t, ch);
    }
  }

  // --------------------------------------------------------- what the flusher reads

  /** The buffer the flusher is about to reset is sealed and not active, no producer that
      passed the recheck is inside of it, and every slot it is about to read was written
      in this generation by the call that got it. */
  ghost predicate ReadsOnlyWritten(s: State, d: nat) {
    var m, h := s.mem, s.hist;
    && WellFormed(m, h) && d < m.count && m.sealed[d] && m.active != d
    && (forall u: nat :: u < |s.threads| && PlaceOf(s.threads[u]).Some? ==> PlaceOf(s.threads[u]).value.a != d)
    && h.freed < |h.log| && IsSlot(h.slots, h.freed, d)
    && |h.log[h.freed]| == Min(m.index[d], m.cap)
    && forall j: nat :: j < |h.log[h.freed]| ==>
         var c := h.log[h.freed][j];
         && c < |h.args| && h.tickets[c] == Some(Ticket(h.freed, j)) && h.written[c]
         && m.items[d][j] == h.args[c]
  }

  lemma FlushReadsOnlyWritten(
    run: seq<State>, count: nat, cap: nat, items: seq<seq<Value>>, threads: nat, i: nat, t: nat)
    requires IsRun(run, count, cap, items, threads) && i < |run|
    requires t < |run[i].threads| && run[i].threads[t].FlushTake?
    ensures ReadsOnlyWritten(run[i], run[i].threads[t].d)
  {
    RunKeepsInv(run, count, cap, items, threads, i);
    hide IsRun, OrderOk, OutputOk;
    var s := run[i];
    var m, h, d := s.mem, s.hist, s.threads[t].d;
    assert ThreadOk(m, h, s.threads[t], t);
    assert SealedAt(m.sealed, h.slots, h.freed);
    forall u: nat | u < |s.threads| && PlaceOf(s.threads[u]).Some?
      ensures PlaceOf(s.threads[u]).value.a != d
    {
      assert ThreadOk(m, h, s.threads[u], u);
      assert h.slots[PlaceOf(s.threads[u]).value.g] != h.slots[h.freed];
    }
  }

  // ------------------------------------------------------------- the abstract queue

  /** The accepted calls, in stream order. */
  function Queue(log: seq<seq<nat>>): seq<nat> {
    if log == [] then [] else Queue(log[..|log| - 1]) + log[|log| - 1]
  }

  /** Where a ticket is in the queue. */
  function Position(log: seq<seq<nat>>, k: Ticket): nat
    requires k.gen < |log|
  {
    |Queue(log[..k.gen])| + k.slot
  }

  lemma {:induction false} QueuePrefix(log: seq<seq<nat>>, g: nat)
    requires g < |log|
    ensures |Queue(log[..g])| + |log[g]| <= |Queue(log)|
    ensures Queue(log)[..|Queue(log[..g])|] == Queue(log[..g])
    ensures forall j :: 0 <= j < |log[g]| ==> Queue(log)[|Queue(log[..g])| + j] == log[g][j]
  {
    var last := |log| - 1;
    if g < last {
      QueuePrefix(log[..last], g);
      assert log[..last][..g] == log[..g];
    }
  }

  /** A ticket marks the place of its call, and later tickets mark later places. */
  lemma PositionsFollowTickets(log: seq<seq<nat>>, a: Ticket, b: Ticket)
    requires a.gen < |log| && a.slot < |log[a.gen]| && b.gen < |log| && b.slot < |log[b.gen]|
    ensures Position(log, a) < |Queue(log)| && Queue(log)[Position(log, a)] == log[a.gen][a.slot]
    ensures Less(a, b) ==> Position(log, a) < Position(log, b)
  {
    QueuePrefix(log, a.gen);
    if a.gen < b.gen {
      QueuePrefix(log[..b.gen], a.gen);
      assert log[..b.gen][..a.gen] == log[..a.gen];
    }
  }

  lemma {:induction false} TicketAt(log: seq<seq<nat>>, p: nat) returns (k: Ticket)
    requires p < |Queue(log)|
    ensures k.gen < |log| && k.slot < |log[k.gen]| && Position(log, k) == p
  {
    var last := |log| - 1;
    if p < |Queue(log[..last])| {
      k := TicketAt(log[..last], p);
      assert log[..last][..k.gen] == log[..k.gen];
    } else {
      k := Ticket(last, p - |Queue(log[..last])|);
    }
  }

  /** No call is in the queue twice. */
  lemma QueueHasNoDuplicates(h: History, p: nat, q: nat)
    requires TicketsMatchLog(h.tickets, h.log) && p < |Queue(h.log)| && q < |Queue(h.log)|
    requires Queue(h.log)[p] == Queue(h.log)[q]
    ensures p == q
  {
    var a := TicketAt(h.log, p);
    var b := TicketAt(h.log, q);
    PositionsFollowTickets(h.log, a, b);
    PositionsFollowTickets(h.log, b, a);
    assert h.tickets[h.log[a.gen][a.slot]] == Some(a) && h.tickets[h.log[b.gen][b.slot]] == Some(b);
  }

  /** Each call whose enqueue returned true is in the queue exactly once, each call whose
      enqueue returned false is not in it, and there is one discard for each of those. */
  lemma AcceptedExactlyOnce(
    run: seq<State>, count: nat, cap: nat, items: seq<seq<Value>>, threads: nat, i: nat)
    requires IsRun(run, count, cap, items, threads) && i < |run|
    ensures var h := run[i].hist;
      && (forall c: nat :: c < |h.results| && h.results[c] == Some(true) ==> multiset(Queue(h.log))[c] == 1)
      && (forall c: nat :: c < |h.results| && h.results[c] == Some(false) ==> multiset(Queue(h.log))[c] == 0)
      && run[i].mem.discards == |set c: nat | c < |h.results| && h.results[c] == Some(false)|
  {
    RunKeepsInv(run, count, cap, items, threads, i);
    hide IsRun, SlotsOk, SealedBelow, ClearAbove, LogMatchesIndex, SlotsHold, OrderOk, OutputOk, ThreadsOk;
    var h := run[i].hist;
    forall c: nat | c < |h.results| && h.results[c] == Some(true)
      ensures multiset(Queue(h.log))[c] == 1
    {
      var k := h.tickets[c].value;
      PositionsFollowTickets(h.log, k, k);
      forall p: nat, q: nat | p < |Queue(h.log)| && q < |Queue(h.log)| && Queue(h.log)[p] == Queue(h.log)[q]
        ensures p == q
      {
        QueueHasNoDuplicates(h, p, q);
      }
      OccursOnce(Queue(h.log), Position(h.log, k));
    }
    forall c: nat | c < |h.results| && h.results[c] == Some(false)
      ensures multiset(Queue(h.log))[c] == 0
    {
      if c in Queue(h.log) {
        var p: nat :| p < |Queue(h.log)| && Queue(h.log)[p] == c;
        var k := TicketAt(h.log, p);
        PositionsFollowTickets(h.log, k, k);
        assert false;
      }
    }
    FailuresCounts(h.results);
  }

  lemma OccursOnce(s: seq<nat>, p: nat)
    requires p < |s| && forall i: nat, j: nat :: i < |s| && j < |s| && s[i] == s[j] ==> i == j
    ensures multiset(s)[s[p]] == 1
  {
    assert s == s[..p] + [s[p]] + s[p + 1..];
    assert s[p] !in s[..p] && s[p] !in s[p + 1..];
  }

  lemma {:induction false} FailuresCounts(results: seq<Option<bool>>)
    ensures Failures(results) == |set c: nat | c < |results| && results[c] == Some(false)|
  {
    var all := set c: nat | c < |results| && results[c] == Some(false);
    if results != [] {
      var last := |results| - 1;
      var rest := results[..last];
      FailuresCounts(rest);
      var below := set c: nat | c < |rest| && rest[c] == Some(false);
      assert all == below + if results[last] == Some(false) then {last as nat} else {};
    } else {
      assert all == {};
    }
  }

  /** First in, first out: a call made after another one had returned true comes later. */
  lemma FirstInFirstOut(
    run: seq<State>, count: nat, cap: nat, items: seq<seq<Value>>, threads: nat, i: nat, b: nat, c: nat)
    requires IsRun(run, count, cap, items, threads) && i < |run|
    requires var h := run[i].hist; c < |h.before| && b in h.before[c] && c < |h.tickets| && h.tickets[c].Some?
    ensures var h := run[i].hist;
      && b < |h.tickets| && h.tickets[b].Some?
      && var p, q := h.tickets[b].value, h.tickets[c].value;
         && p.gen < |h.log| && q.gen < |h.log|
         && Position(h.log, p) < Position(h.log, q) < |Queue(h.log)|
         && Queue(h.log)[Position(h.log, p)] == b && Queue(h.log)[Position(h.log, q)] == c
  {
    RunKeepsInv(run, count, cap, items, threads, i);
    hide IsRun, SlotsOk, SealedBelow, ClearAbove, LogMatchesIndex, SlotsHold, OutputOk, ThreadsOk;
    var h := run[i].hist;
    PositionsFollowTickets(h.log, h.tickets[b].value, h.tickets[c].value);
    PositionsFollowTickets(h.log, h.tickets[c].value, h.tickets[c].value);
  }

  /** `before` is what its name says: a call is made at one step of the run, and the calls
      recorded as before it are those that had returned true by then. */
  lemma BeforeIsReturnedBefore(s: State, t: nat, ch: Choice)
    requires Inv(s) && t < |s.threads|
    ensures WellFormed(s.mem, s.hist)
    ensures LocalsOk(s.mem.count, s.mem.cap, |s.hist.args|, |s.hist.log|, s.threads[t])
    ensures var h, h' := s.hist, Step(s, t, ch).hist;
      && h.before <= h'.before && h.args <= h'.args
      && (h'.before == h.before || h'.before == h.before + [set c: nat | c < |h.results| && h.results[c] == Some(true)])
  {
    hide RingOk, RecordsOk, AddingOk, UnwrittenOk, WindowOk;
    assert ThreadOk(s.mem, s.hist, s.threads[t], t);
  }

  // --------------------------------------------------------------- what was emitted

  lemma ItemsOfAppend(args: seq<Value>, a: seq<nat>, b: seq<nat>)
    ensures ItemsOf(args, a + b) == ItemsOf(args, a) + ItemsOf(args, b)
  {
  }

  lemma {:induction false} StreamOfQueue(args: seq<Value>, log: seq<seq<nat>>)
    ensures StreamOf(args, log) == ItemsOf(args, Queue(log))
  {
    if log != [] {
      StreamOfQueue(args, log[..|log| - 1]);
      ItemsOfAppend(args, Queue(log[..|log| - 1]), log[|log| - 1]);
      hide ItemsOf;
    }
  }

  lemma {:induction false} StreamOfSplit(args: seq<Value>, log: seq<seq<nat>>, g: nat)
    requires g <= |log|
    ensures StreamOf(args, log[..g]) + StreamOf(args, log[g..]) == StreamOf(args, log)
  {
    if g == |log| {
      assert log[..g] == log;
    } else {
      var last := |log| - 1;
      StreamOfSplit(args, log[..last], g);
      assert log[..last][..g] == log[..g];
      assert log[g..][..last - g] == log[..last][g..];
    }
  }

  /** At every moment of every run, what was emitted is the front of the queue. */
  lemma EmittedIsFront(
    run: seq<State>, count: nat, cap: nat, items: seq<seq<Value>>, threads: nat, i: nat)
    requires IsRun(run, count, cap, items, threads) && i < |run|
    ensures Concat(run[i].mem.emitted) <= ItemsOf(run[i].hist.args, Queue(run[i].hist.log))
  {
    RunKeepsInv(run, count, cap, items, threads, i);
    hide IsRun, RingOk, LogMatchesIndex, SlotsHold, TicketsMatchLog, OrderOk, ThreadsOk, AddingOk;
    var h := run[i].hist;
    StreamOfSplit(h.args, h.log, h.out);
    StreamOfQueue(h.args, h.log);
  }
}
