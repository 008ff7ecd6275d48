/**
 The inductive invariant of the buffer ring.

 Buffers are numbered by generation: generation `g` lives in buffer `slots[g]`, and
 at any time the `n` buffers carry the generations `freed .. freed + n - 1`.  Those
 before the active one are sealed, those after it are clear.
 */
module BatcherRingInvariant {
  import opened Prelude
  import opened BatcherRing

  // ------------------------------------------------------------ shared state

  /** Generation `g` is in buffer `a`. */
  predicate IsSlot(slots: seq<nat>, g: int, a: nat) {
    0 <= g < |slots| && slots[g] == a
  }

  /** Generations take the buffers in turn, and the last `n` are in different ones. */
  ghost predicate SlotsOk(n: nat, slots: seq<nat>, freed: nat) {
    && n >= 2 && |slots| == freed + n
    && (forall g: int :: 0 <= g < |slots| ==> slots[g] < n)
    && (forall g: int, k: int :: freed <= g < k < |slots| ==> slots[g] != slots[k])
    && (forall g: int, k: int {:trigger slots[g], slots[k]} :: freed <= g && k == g + 1 < |slots| ==>
          slots[k] == NextIdx(n, slots[g]))
    && NextIdx(n, slots[|slots| - 1]) == slots[freed]
  }

  predicate SealedAt(sealed: seq<bool>, slots: seq<nat>, g: int) {
    0 <= g < |slots| && slots[g] < |sealed| && sealed[slots[g]]
  }

  function IndexAt(index: seq<nat>, slots: seq<nat>, g: int): nat {
    if 0 <= g < |slots| && slots[g] < |index| then index[slots[g]] else 0
  }

  /** The buffers from the oldest one up to the active one are sealed ... */
  ghost predicate SealedBelow(sealed: seq<bool>, slots: seq<nat>, freed: nat, top: int) {
    forall g: int {:trigger slots[g]} {:trigger SealedAt(sealed, slots, g)} ::
      freed <= g < top ==> SealedAt(sealed, slots, g)
  }

  /** ... and those after it are clear. */
  ghost predicate ClearAbove(sealed: seq<bool>, index: seq<nat>, slots: seq<nat>, top: int) {
    forall g: int {:trigger slots[g]} {:trigger SealedAt(sealed, slots, g)} {:trigger IndexAt(index, slots, g)} ::
      top < g < |slots| ==> !SealedAt(sealed, slots, g) && IndexAt(index, slots, g) == 0
  }

  /** How far the flusher is with generation `freed`. */
  ghost predicate FlushPhase(flushing: bool, drain: nat, h: History) {
    && h.freed <= h.floor <= h.freed + 1 && h.floor <= ActiveGen(h) < |h.slots|
    && h.freed <= h.out <= h.floor
    && (flushing <==> h.flusher.Some?)
    && (h.flusher.None? ==> h.floor == h.freed == h.out && IsSlot(h.slots, h.freed, drain))
  }

  /** The log of a generation still open to producers has one entry per taken slot. */
  ghost predicate LogMatchesIndex(index: seq<nat>, cap: nat, log: seq<seq<nat>>, slots: seq<nat>, floor: nat) {
    forall g: int {:trigger log[g]} {:trigger slots[g]} {:trigger IndexAt(index, slots, g)} ::
      floor <= g < |log| ==> |log[g]| == Min(IndexAt(index, slots, g), cap)
  }

  /** A written slot holds the item of the call the log names. */
  ghost predicate SlotHolds(
    items: seq<seq<Value>>, args: seq<Value>, written: seq<bool>, log: seq<seq<nat>>, slots: seq<nat>, g: int, j: int)
  {
    && 0 <= g < |log| && 0 <= j < |log[g]|
    && log[g][j] < |args| && log[g][j] < |written|
    && g < |slots| && slots[g] < |items| && j < |items[slots[g]]|
    && (written[log[g][j]] ==> items[slots[g]][j] == args[log[g][j]])
  }

  ghost predicate SlotsHold(
    items: seq<seq<Value>>, args: seq<Value>, written: seq<bool>, log: seq<seq<nat>>, slots: seq<nat>, floor: nat)
  {
    forall g: int, j: int {:trigger log[g][j]} {:trigger SlotHolds(items, args, written, log, slots, g, j)} ::
      floor <= g < |log| && 0 <= j < |log[g]| ==> SlotHolds(items, args, written, log, slots, g, j)
  }

  /** Tickets and log entries correspond one to one. */
  ghost predicate TicketsMatchLog(tickets: seq<Option<Ticket>>, log: seq<seq<nat>>) {
    && (forall g: nat, j: nat :: g < |log| && j < |log[g]| ==>
          log[g][j] < |tickets| && tickets[log[g][j]] == Some(Ticket(g, j)))
    && (forall c: int :: 0 <= c < |tickets| && tickets[c].Some? ==>
          var k := tickets[c].value;
          k.gen < |log| && k.slot < |log[k.gen]| && log[k.gen][k.slot] == c)
  }

  predicate Less(a: Ticket, b: Ticket) {
    a.gen < b.gen || (a.gen == b.gen && a.slot < b.slot)
  }

  /** A finished call has what its result says it has. */
  ghost predicate ResultsOk(tickets: seq<Option<Ticket>>, written: seq<bool>, results: seq<Option<bool>>) {
    && |tickets| == |written| == |results|
    && (forall c: int :: 0 <= c < |written| && written[c] ==> tickets[c].Some?)
    && (forall c: int :: 0 <= c < |results| && results[c] == Some(true) ==> written[c])
    && (forall c: int :: 0 <= c < |results| && results[c] == Some(false) ==> tickets[c].None?)
  }

  /** Calls that had returned when another one was made come before it. */
  ghost predicate OrderOk(before: seq<set<nat>>, tickets: seq<Option<Ticket>>, results: seq<Option<bool>>) {
    && |before| == |tickets| == |results|
    && forall c: int, b: nat {:trigger b in before[c]} :: 0 <= c < |before| && b in before[c] ==>
         && b < |tickets| && results[b] == Some(true) && tickets[b].Some?
         && (tickets[c].Some? ==> Less(tickets[b].value, tickets[c].value))
  }

  /** The items of the logged calls. */
  function ItemsOf(args: seq<Value>, calls: seq<nat>): (r: seq<Value>)
    ensures |r| == |calls|
  {
    seq(|calls|, j requires 0 <= j < |calls| => if calls[j] < |args| then args[calls[j]] else 0)
  }

  /** The items of the log, generation by generation. */
  function StreamOf(args: seq<Value>, log: seq<seq<nat>>): seq<Value> {
    if log == [] then []
    else StreamOf(args, log[..|log| - 1]) + ItemsOf(args, log[|log| - 1])
  }

  function Concat(batches: seq<seq<Value>>): seq<Value> {
    if batches == [] then []
    else Concat(batches[..|batches| - 1]) + batches[|batches| - 1]
  }

  function Failures(results: seq<Option<bool>>): nat {
    if results == [] then 0
    else Failures(results[..|results| - 1]) + if results[|results| - 1] == Some(false) then 1 else 0
  }

  ghost predicate OutputOk(emitted: seq<seq<Value>>, args: seq<Value>, log: seq<seq<nat>>, out: nat) {
    && out <= |log|
    && Concat(emitted) == StreamOf(args, log[..out])
  }

  /** The shape of the ring. */
  ghost predicate RingOk(m: Memory, h: History) {
    && SlotsOk(m.count, h.slots, h.freed)
    && IsSlot(h.slots, ActiveGen(h), m.active)
    && FlushPhase(m.flushing, m.drain, h)
    && SealedBelow(m.sealed, h.slots, h.freed, ActiveGen(h))
    && ClearAbove(m.sealed, m.index, h.slots, ActiveGen(h))
  }

  /** What is in the ring, and what came out of it. */
  ghost predicate RecordsOk(m: Memory, h: History) {
    && LogMatchesIndex(m.index, m.cap, h.log, h.slots, h.floor)
    && SlotsHold(m.items, h.args, h.written, h.log, h.slots, h.floor)
    && TicketsMatchLog(h.tickets, h.log)
    && ResultsOk(h.tickets, h.written, h.results)
    && OrderOk(h.before, h.tickets, h.results)
    && OutputOk(m.emitted, h.args, h.log, h.out)
    && m.discards == Failures(h.results)
  }

  // ----------------------------------------------------------- thread by thread

  /** What a producer has got for its call so far. */
  datatype Progress = Nothing | Reserved(k: Ticket) | Stored

  datatype Work = Work(c: nat, progress: Progress)

  /** The call the thread is working on. */
  function WorkOf(th: Thread): Option<Work> {
    match th
    case LoadActive(c) => Some(Work(c, Nothing))
    case LoadSealed(c, a) => Some(Work(c, Nothing))
    case IncAdding(c, a) => Some(Work(c, Nothing))
    case Recheck(c, a) => Some(Work(c, Nothing))
    case RecheckSealed(c, a, g) => Some(Work(c, Nothing))
    case RecheckMiss(c, a) => Some(Work(c, Nothing))
    case BackOut(c, a) => Some(Work(c, Nothing))
    case TakeSlot(c, a, g) => Some(Work(c, Nothing))
    case WriteSlot(c, a, g, i) => Some(Work(c, Reserved(Ticket(g, i))))
    case Leave(c, a, g) => Some(Work(c, Stored))
    case LeaveFull(c, a, g, rotated) => Some(Work(c, Nothing))
    case FullRetest(c, a) => Some(Work(c, Nothing))
    case Drop(c) => Some(Work(c, Nothing))
    case Rotate(pc, a, g, AfterWrite(c)) => Some(Work(c, Stored))
    case Rotate(pc, a, g, AfterFull(c)) => Some(Work(c, Nothing))
    case _ => None
  }

  datatype Place = Place(c: nat, a: nat, g: nat)

  /** The buffer the thread is inside of: it passed the recheck and is still counted. */
  function PlaceOf(th: Thread): Option<Place> {
    match th
    case RecheckSealed(c, a, g) => Some(Place(c, a, g))
    case TakeSlot(c, a, g) => Some(Place(c, a, g))
    case WriteSlot(c, a, g, i) => Some(Place(c, a, g))
    case Leave(c, a, g) => Some(Place(c, a, g))
    case LeaveFull(c, a, g, rotated) => Some(Place(c, a, g))
    case Rotate(pc, a, g, AfterWrite(c)) => Some(Place(c, a, g))
    case Rotate(pc, a, g, AfterFull(c)) => Some(Place(c, a, g))
    case _ => None
  }

  ghost predicate WorkOk(h: History, w: Work, t: nat) {
    && w.c < |h.args| && w.c < |h.owners| && w.c < |h.results| && w.c < |h.tickets| && w.c < |h.written|
    && h.owners[w.c] == t && h.results[w.c].None?
    && match w.progress
       case Nothing => h.tickets[w.c].None?
       case Reserved(k) => h.tickets[w.c] == Some(k) && !h.written[w.c]
       case Stored => h.tickets[w.c].Some? && h.written[w.c]
  }

  /** What was accepted before call `c` was made was accepted no later than generation `g`. */
  ghost predicate NoLater(before: seq<set<nat>>, tickets: seq<Option<Ticket>>, c: nat, g: nat) {
    && c < |before|
    && forall b: nat {:trigger b in before[c]} :: b in before[c] ==>
         b < |tickets| && tickets[b].Some? && tickets[b].value.gen <= g
  }

  /** The flusher cannot be past a generation somebody is inside of. */
  ghost predicate Inside(h: History, p: Place) {
    && IsSlot(h.slots, p.g, p.a) && h.floor <= p.g <= ActiveGen(h)
    && NoLater(h.before, h.tickets, p.c, p.g)
  }

  /** Past its first check, a rotation from the active buffer has room for another one;
      at its swap the old buffer is sealed. */
  predicate RotateOk(sealed: seq<bool>, slots: seq<nat>, top: int, th: Thread) {
    th.Rotate? ==>
      && (!th.pc.CheckSealed? && !th.pc.Retest? && th.g == top ==> top + 1 < |slots|)
      && (th.pc.Swap? ==> SealedAt(sealed, slots, th.g))
  }

  predicate IsFlusher(th: Thread) {
    InFlushCall(th) || (th.Rotate? && th.ret.InFlush?)
  }

  /** All of the generation being drained is in its buffer. */
  ghost predicate Complete(
    items: seq<seq<Value>>, args: seq<Value>, written: seq<bool>, log: seq<seq<nat>>, slots: seq<nat>, g: nat)
  {
    && g < |log|
    && forall j: int {:trigger log[g][j]} {:trigger SlotHolds(items, args, written, log, slots, g, j)} ::
         0 <= j < |log[g]| ==> SlotHolds(items, args, written, log, slots, g, j) && written[log[g][j]]
  }

  predicate InDrain(th: Thread) {
    th.FlushTake? || th.FlushCopy? || th.FlushUnseal?
  }

  /** The phases of the flusher, on the numbers that delimit them. */
  predicate FlusherPhase(h: History, drain: nat, count: nat, th: Thread) {
    if InDrain(th) then
      && h.floor == h.freed + 1 && IsSlot(h.slots, h.freed, drain) && th.d == drain
      && h.out == if th.FlushUnseal? then h.floor else h.freed
    else if th.FlushAdvance? then
      && h.freed == h.floor == h.out && h.freed > 0
      && th.d == drain < count && IsSlot(h.slots, h.freed, NextIdx(count, drain))
    else
      && h.floor == h.freed == h.out && IsSlot(h.slots, h.freed, drain)
      && (th.FlushLoadSealed? || th.FlushLoadActive? || th.FlushLoadIndex? || th.FlushWait? ==> th.d == drain)
      && (th.Rotate? ==> th.g == h.freed && th.a == drain)
      && (th.FlushLoadIndex? && th.act != th.d ==> h.freed < ActiveGen(h))
  }

  /** What the flusher knows about the buffer it drains. */
  ghost predicate DrainOk(
    index: seq<nat>, cap: nat, args: seq<Value>, log: seq<seq<nat>>, slots: seq<nat>, g: nat, th: Thread)
  {
    && g < |log|
    && (th.FlushTake? ==> |log[g]| == Min(IndexAt(index, slots, g), cap))
    && (th.FlushCopy? || th.FlushUnseal? ==> IndexAt(index, slots, g) == 0)
    && (th.FlushCopy? ==>
          && |th.batch| <= th.n == |log[g]| <= cap
          && th.batch == ItemsOf(args, log[g])[..|th.batch|])
  }

  ghost predicate FlusherOk(m: Memory, h: History, th: Thread) {
    && FlusherPhase(h, m.drain, m.count, th)
    && (th.FlushWait? ==> SealedAt(m.sealed, h.slots, h.freed))
    && (InDrain(th) ==>
          && Complete(m.items, h.args, h.written, h.log, h.slots, h.freed)
          && DrainOk(m.index, m.cap, h.args, h.log, h.slots, h.freed, th))
  }

  ghost predicate ThreadOk(m: Memory, h: History, th: Thread, t: nat) {
    && (WorkOf(th).Some? ==> WorkOk(h, WorkOf(th).value, t))
    && (PlaceOf(th).Some? ==> Inside(h, PlaceOf(th).value))
    && LocalsOk(m.count, m.cap, |h.args|, |h.log|, th)
    && RotateOk(m.sealed, h.slots, ActiveGen(h), th)
    && (IsFlusher(th) <==> h.flusher == Some(t))
    && (IsFlusher(th) ==> FlusherOk(m, h, th))
  }

  ghost predicate ThreadsOk(m: Memory, h: History, threads: seq<Thread>) {
    forall t: nat :: t < |threads| ==> ThreadOk(m, h, threads[t], t)
  }

  // --------------------------------------------------------- across the threads

  /** The thread counts in `adding` of buffer `i`. */
  predicate Holds(th: Thread, i: nat) {
    match th
    case Recheck(c, a) => a == i
    case RecheckSealed(c, a, g) => a == i
    case RecheckMiss(c, a) => a == i
    case BackOut(c, a) => a == i
    case TakeSlot(c, a, g) => a == i
    case WriteSlot(c, a, g, k) => a == i
    case Leave(c, a, g) => a == i
    case LeaveFull(c, a, g, rotated) => a == i
    case Rotate(pc, a, g, ret) => a == i && !ret.InFlush?
    case _ => false
  }

  function Holders(threads: seq<Thread>, i: nat): set<nat> {
    set t: nat | t < |threads| && Holds(threads[t], i)
  }

  ghost predicate AddingOk(adding: seq<int>, threads: seq<Thread>) {
    forall i: nat :: i < |adding| ==> adding[i] == |Holders(threads, i)|
  }

  /** Every reserved but unwritten slot has a producer that is about to write it. */
  ghost predicate UnwrittenOk(
    owners: seq<nat>, tickets: seq<Option<Ticket>>, written: seq<bool>, threads: seq<Thread>)
  {
    && |owners| == |tickets| == |written|
    && forall c: int :: 0 <= c < |tickets| && tickets[c].Some? && !written[c] ==>
         owners[c] < |threads| && threads[owners[c]].WriteSlot? && threads[owners[c]].c == c
  }

  /** The active buffer is sealed only while the thread that sealed it is at its swap. */
  ghost predicate WindowOk(sealed: seq<bool>, active: nat, top: int, sealer: nat, threads: seq<Thread>) {
    active < |sealed| && sealed[active] ==>
      sealer < |threads| && threads[sealer].Rotate? && threads[sealer].pc.Swap? && threads[sealer].g == top
  }

  ghost predicate Inv(s: State) {
    var m, h := s.mem, s.hist;
    && WellFormed(m, h)
    && RingOk(m, h)
    && RecordsOk(m, h)
    && ThreadsOk(m, h, s.threads)
    && AddingOk(m.adding, s.threads)
    && UnwrittenOk(h.owners, h.tickets, h.written, s.threads)
    && WindowOk(m.sealed, m.active, ActiveGen(h), h.sealer, s.threads)
  }
}
