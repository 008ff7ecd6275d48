/**
 The buffer ring of the telemetry batcher (src/sentry_batcher.c), as a step system.

 Any number of threads run `sentry__batcher_enqueue` and `sentry__batcher_flush`
 on one batcher.  Every `sentry__atomic_*` call, every store into an item slot and
 every load from one is a single step; steps of different threads interleave freely.

 `Memory` is what the C structure holds.  `History` records what happened: `args` are the
 items that the calls were made with, which a call reads where the code reads its
 parameter, and nothing else of it has an effect on memory.  In the same way the field `g`
 of a thread is bookkeeping: the generation of the buffer the thread works in.
 */
module BatcherRing {
  import opened Prelude

  /** A `sentry_value_t` is a 64-bit handle. */
  type Value = int

  /** The batcher, its buffers field by field: `items[i]`, `index[i]`, `adding[i]` and
      `sealed[i]` are the fields of `buffers[i]`.  `count` is SENTRY_BATCHER_BUFFER_COUNT
      and `cap` is SENTRY_BATCHER_QUEUE_LENGTH. */
  datatype Memory = Memory(
    count: nat,
    cap: nat,
    items: seq<seq<Value>>,
    index: seq<nat>,
    adding: seq<int>,
    sealed: seq<bool>,
    active: nat,
    drain: nat,
    flushing: bool,
    emitted: seq<seq<Value>>,  // batches handed to process_batch, in order
    discards: nat)             // queue_overflow discards recorded

  /** The place an accepted item has in the stream: generation, then slot. */
  datatype Ticket = Ticket(gen: nat, slot: nat)

  /** The calls of `sentry__batcher_enqueue` are numbered in the order they are made. */
  datatype History = History(
    args: seq<Value>,               // per call, its item
    owners: seq<nat>,               // per call, the calling thread
    before: seq<set<nat>>,          // per call, the calls that had returned true when it was made
    tickets: seq<Option<Ticket>>,   // per call, the slot it got
    written: seq<bool>,             // per call, whether its item is in its slot
    results: seq<Option<bool>>,     // per call, what it returned
    log: seq<seq<nat>>,             // per generation, the calls that got its slots
    slots: seq<nat>,                // per generation, its buffer
    freed: nat,                     // generations whose buffer was unsealed again
    floor: nat,                     // no producer is inside a generation below this one
    out: nat,                       // generations whose items were emitted
    flusher: Option<nat>,           // the thread that owns `flushing`
    sealer: nat)                    // the thread that last sealed the active buffer

  /** Where `rotate_buffer` returns to. */
  datatype Return = AfterWrite(c: nat) | AfterFull(c: nat) | InFlush(fi: nat)

  /** The atomic operations of `rotate_buffer`, in program order. */
  datatype RotatePc = CheckSealed | CheckIndex | CheckAdding | Seal | Swap | Retest

  datatype Thread =
    | Idle
    // sentry__batcher_enqueue, call number c
    | LoadActive(c: nat)
    | LoadSealed(c: nat, a: nat)
    | IncAdding(c: nat, a: nat)
    | Recheck(c: nat, a: nat)
    | RecheckSealed(c: nat, a: nat, g: nat)
    | RecheckMiss(c: nat, a: nat)
    | BackOut(c: nat, a: nat)
    | TakeSlot(c: nat, a: nat, g: nat)
    | WriteSlot(c: nat, a: nat, g: nat, i: nat)
    | Leave(c: nat, a: nat, g: nat)
    | LeaveFull(c: nat, a: nat, g: nat, rotated: bool)
    | FullRetest(c: nat, a: nat)
    | Drop(c: nat)
    // rotate_buffer
    | Rotate(pc: RotatePc, a: nat, g: nat, ret: Return)
    // sentry__batcher_flush
    | FlushStart
    | FlushLoadDrain(fi: nat)
    | FlushLoadSealed(fi: nat, d: nat)
    | FlushLoadActive(fi: nat, d: nat)
    | FlushLoadIndex(fi: nat, d: nat, act: nat)
    | FlushWait(fi: nat, d: nat)
    | FlushTake(fi: nat, d: nat)
    | FlushCopy(fi: nat, d: nat, n: nat, batch: seq<Value>)
    | FlushUnseal(fi: nat, d: nat)
    | FlushAdvance(fi: nat, d: nat)
    | FlushEnd

  datatype State = State(mem: Memory, hist: History, threads: seq<Thread>)

  /** What an idle thread does next. */
  datatype Choice = Enqueue(item: Value) | Flush

  // ---------------------------------------------------------------- the ring

  /** `(i + 1) % SENTRY_BATCHER_BUFFER_COUNT`, see `NextIdxIsModulo`. */
  function NextIdx(n: nat, i: nat): (r: nat)
    requires i < n
    ensures r < n
  {
    if i + 1 == n then 0 else i + 1
  }

  lemma NextIdxIsModulo(n: nat, i: nat)
    requires i < n
    ensures NextIdx(n, i) == (i + 1) % n
  {
  }

  /** The generation of the active buffer. */
  function ActiveGen(h: History): int {
    |h.log| - 1
  }

  // --------------------------------------------------------------- the steps

  function Add(adding: seq<int>, a: nat, k: int): seq<int>
    requires a < |adding|
  {
    adding[a := adding[a] + k]
  }

  function Returned(results: seq<Option<bool>>): set<nat> {
    set c: nat | c < |results| && results[c] == Some(true)
  }

  function With(s: State, m: Memory, h: History, t: nat, th: Thread): State
    requires t < |s.threads|
  {
    State(m, h, s.threads[t := th])
  }

  function Goto(s: State, t: nat, th: Thread): State
    requires t < |s.threads|
  {
    With(s, s.mem, s.hist, t, th)
  }

  /** `rotate_buffer` returned `rotated`. */
  function Resume(ret: Return, a: nat, g: nat, rotated: bool): Thread {
    match ret
    case AfterWrite(c) => Leave(c, a, g)
    case AfterFull(c) => LeaveFull(c, a, g, rotated)
    case InFlush(fi) => if rotated then FlushWait(fi, a) else FlushEnd
  }

  /** One step inside `rotate_buffer(batcher, a)`. */
  function RotateStep(s: State, t: nat, pc: RotatePc, a: nat, g: nat, ret: Return): State
    requires WellFormed(s.mem, s.hist) && t < |s.threads| && a < s.mem.count
  {
    var m, h := s.mem, s.hist;
    var next := NextIdx(m.count, a);
    match pc
    case CheckSealed =>
      Goto(s, t, Rotate(if m.sealed[next] then Retest else CheckIndex, a, g, ret))
    case CheckIndex =>
      Goto(s, t, Rotate(if m.index[next] != 0 then Retest else CheckAdding, a, g, ret))
    case CheckAdding =>
      Goto(s, t, Rotate(if m.adding[next] != 0 then Retest else Seal, a, g, ret))
    case Seal =>
      With(s, m.(sealed := m.sealed[a := true]),
           if a == m.active then h.(sealer := t) else h,
           t, Rotate(Swap, a, g, ret))
    case Swap =>
      if m.active == a then
        With(s, m.(active := next), h.(log := h.log + [[]]), t, Resume(ret, a, g, true))
      else
        Goto(s, t, Rotate(Retest, a, g, ret))
    case Retest =>
      Goto(s, t, Resume(ret, a, g, m.active != a))
  }

  /** One step of a call of `sentry__batcher_enqueue`. */
  function EnqueueStep(s: State, t: nat): State
    requires WellFormed(s.mem, s.hist) && t < |s.threads| && InEnqueue(s.threads[t])
    requires LocalsOk(s.mem.count, s.mem.cap, |s.hist.args|, |s.hist.log|, s.threads[t])
  {
    var m, h := s.mem, s.hist;
    match s.threads[t]
    case LoadActive(c) =>
      Goto(s, t, LoadSealed(c, m.active))
    case LoadSealed(c, a) =>
      Goto(s, t, if m.sealed[a] then LoadActive(c) else IncAdding(c, a))
    case IncAdding(c, a) =>
      With(s, m.(adding := Add(m.adding, a, 1)), h, t, Recheck(c, a))
    case Recheck(c, a) =>
      Goto(s, t, if m.active == a then RecheckSealed(c, a, ActiveGen(h)) else RecheckMiss(c, a))
    case RecheckSealed(c, a, g) =>
      Goto(s, t, if m.sealed[a] then BackOut(c, a) else TakeSlot(c, a, g))
    case RecheckMiss(c, a) =>
      Goto(s, t, BackOut(c, a))
    case BackOut(c, a) =>
      With(s, m.(adding := Add(m.adding, a, -1)), h, t, LoadActive(c))
    case TakeSlot(c, a, g) =>
      var i := m.index[a];
      var m' := m.(index := m.index[a := i + 1]);
      if i < m.cap then
        With(s, m', h.(tickets := h.tickets[c := Some(Ticket(g, i))], log := h.log[g := h.log[g] + [c]]),
             t, WriteSlot(c, a, g, i))
      else
        With(s, m', h, t, Rotate(CheckSealed, a, g, AfterFull(c)))
    case WriteSlot(c, a, g, i) =>
      With(s, m.(items := m.items[a := m.items[a][i := h.args[c]]]),
           h.(written := h.written[c := true]),
           t, if i == m.cap - 1 then Rotate(CheckSealed, a, g, AfterWrite(c)) else Leave(c, a, g))
    case Leave(c, a, g) =>
      With(s, m.(adding := Add(m.adding, a, -1)), h.(results := h.results[c := Some(true)]), t, Idle)
    case LeaveFull(c, a, g, rotated) =>
      With(s, m.(adding := Add(m.adding, a, -1)), h,
           t, if rotated then LoadActive(c) else FullRetest(c, a))
    case FullRetest(c, a) =>
      Goto(s, t, if m.active != a then LoadActive(c) else Drop(c))
    case Drop(c) =>
      With(s, m.(discards := m.discards + 1), h.(results := h.results[c := Some(false)]), t, Idle)
  }

  /** One step of `sentry__batcher_flush`. */
  function FlushStep(s: State, t: nat): State
    requires WellFormed(s.mem, s.hist) && t < |s.threads| && InFlushCall(s.threads[t])
    requires LocalsOk(s.mem.count, s.mem.cap, |s.hist.args|, |s.hist.log|, s.threads[t])
  {
    var m, h := s.mem, s.hist;
    match s.threads[t]
    case FlushStart =>
      Goto(s, t, FlushLoadDrain(m.active))
    case FlushLoadDrain(fi) =>
      Goto(s, t, FlushLoadSealed(fi, m.drain))
    case FlushLoadSealed(fi, d) =>
      Goto(s, t, if m.sealed[d] then FlushWait(fi, d) else FlushLoadActive(fi, d))
    case FlushLoadActive(fi, d) =>
      Goto(s, t, FlushLoadIndex(fi, d, m.active))
    case FlushLoadIndex(fi, d, act) =>
      var count := m.index[d];
      Goto(s, t,
           if act != d then FlushWait(fi, d)
           else if count <= 0 || (d != fi && count < m.cap) then FlushEnd
           else Rotate(CheckSealed, act, h.freed, InFlush(fi)))
    case FlushWait(fi, d) =>
      if m.adding[d] > 0 then s
      else With(s, m, h.(floor := h.freed + 1), t, FlushTake(fi, d))
    case FlushTake(fi, d) =>
      With(s, m.(index := m.index[d := 0]), h, t, FlushCopy(fi, d, Min(m.index[d], m.cap), []))
    case FlushCopy(fi, d, n, batch) =>
      if |batch| < n then
        Goto(s, t, FlushCopy(fi, d, n, batch + [m.items[d][|batch|]]))
      else
        With(s, if n > 0 then m.(emitted := m.emitted + [batch]) else m,
             h.(out := h.freed + 1), t, FlushUnseal(fi, d))
    case FlushUnseal(fi, d) =>
      With(s, m.(sealed := m.sealed[d := false]),
           h.(freed := h.freed + 1, slots := h.slots + [d]), t, FlushAdvance(fi, d))
    case FlushAdvance(fi, d) =>
      With(s, m.(drain := NextIdx(m.count, d)), h, t, FlushLoadDrain(fi))
    case FlushEnd =>
      With(s, m.(flushing := false), h.(flusher := None), t, Idle)
  }

  /** An idle thread enqueues an item or tries to flush.  The try covers both ways
      into `sentry__batcher_flush`: the exchange of a normal flush that found
      `flushing` set, and a compare-and-swap that timed out in crash-safe mode. */
  function IdleStep(s: State, t: nat, ch: Choice): State
    requires t < |s.threads|
  {
    var m, h := s.mem, s.hist;
    match ch
    case Enqueue(item) =>
      With(s, m,
           h.(args := h.args + [item], owners := h.owners + [t], before := h.before + [Returned(h.results)],
              tickets := h.tickets + [None], written := h.written + [false], results := h.results + [None]),
           t, LoadActive(|h.args|))
    case Flush =>
      if m.flushing then s
      else With(s, m.(flushing := true), h.(flusher := Some(t)), t, FlushStart)
  }

  function Step(s: State, t: nat, ch: Choice): State
    requires WellFormed(s.mem, s.hist) && t < |s.threads|
    requires LocalsOk(s.mem.count, s.mem.cap, |s.hist.args|, |s.hist.log|, s.threads[t])
  {
    var th := s.threads[t];
    if th.Idle? then IdleStep(s, t, ch)
    else if th.Rotate? then RotateStep(s, t, th.pc, th.a, th.g, th.ret)
    else if InEnqueue(th) then EnqueueStep(s, t)
    else FlushStep(s, t)
  }

  /** `sentry__batcher_new`: every field zero; what the item slots hold is arbitrary. */
  function InitState(count: nat, cap: nat, items: seq<seq<Value>>, threads: nat): State
  {
    State(
      Memory(count, cap, items, seq(count, i => 0), seq(count, i => 0), seq(count, i => false), 0, 0, false, [], 0),
      History([], [], [], [], [], [], [[]], seq(count, i => i), 0, 0, 0, None, 0),
      seq(threads, i => Idle))
  }

  // ------------------------------------------------- what the steps may read

  predicate InEnqueue(th: Thread) {
    th.LoadActive? || th.LoadSealed? || th.IncAdding? || th.Recheck? || th.RecheckSealed?
    || th.RecheckMiss? || th.BackOut? || th.TakeSlot? || th.WriteSlot? || th.Leave?
    || th.LeaveFull? || th.FullRetest? || th.Drop?
  }

  /** Between taking `flushing` and giving it back, `rotate_buffer` excepted. */
  predicate InFlushCall(th: Thread) {
    th.FlushStart? || th.FlushLoadDrain? || th.FlushLoadSealed? || th.FlushLoadActive?
    || th.FlushLoadIndex? || th.FlushWait? || th.FlushTake? || th.FlushCopy?
    || th.FlushUnseal? || th.FlushAdvance? || th.FlushEnd?
  }

  predicate WellFormed(m: Memory, h: History) {
    && m.count >= 2 && m.cap >= 1
    && m.active < m.count && m.drain < m.count
    && |m.items| == |m.index| == |m.adding| == |m.sealed| == m.count
    && (forall i :: 0 <= i < m.count ==> |m.items[i]| == m.cap)
    && |h.log| > 0
    && |h.args| == |h.owners| == |h.before| == |h.tickets| == |h.written| == |h.results|
  }

  /** Indices held in thread-local variables are in range, so every step is defined. */
  predicate LocalsOk(count: nat, cap: nat, calls: nat, gens: nat, th: Thread) {
    match th
    case LoadActive(c) => c < calls
    case LoadSealed(c, a) => c < calls && a < count
    case IncAdding(c, a) => c < calls && a < count
    case Recheck(c, a) => c < calls && a < count
    case RecheckSealed(c, a, g) => c < calls && a < count
    case RecheckMiss(c, a) => c < calls && a < count
    case BackOut(c, a) => c < calls && a < count
    case TakeSlot(c, a, g) => c < calls && a < count && g < gens
    case WriteSlot(c, a, g, i) => c < calls && a < count && i < cap
    case Leave(c, a, g) => c < calls && a < count
    case LeaveFull(c, a, g, rotated) => c < calls && a < count
    case FullRetest(c, a) => c < calls && a < count
    case Drop(c) => c < calls
    case Rotate(pc, a, g, ret) => a < count
    case FlushLoadSealed(fi, d) => d < count
    case FlushLoadActive(fi, d) => d < count
    case FlushLoadIndex(fi, d, act) => d < count
    case FlushWait(fi, d) => d < count
    case FlushTake(fi, d) => d < count
    case FlushCopy(fi, d, n, batch) => d < count && |batch| <= n <= cap
    case FlushUnseal(fi, d) => d < count
    case FlushAdvance(fi, d) => d < count
    case _ => true
  }
}
