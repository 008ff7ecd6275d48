/**
 Batch tasks against the crash dumper (src/sentry_batcher.c), as a step system.

 Every task has one worker, which serializes, completes and frees it: the flushing thread
 when there is no thread pool, otherwise the pool, which runs `batch_task_complete` after
 `batch_task_exec`.  Any number of crash dumpers walk the task list at the same time and
 claim what the workers have not got to.  `task_lock` is a spin lock; stores made while
 holding it are one step.

 `released` and `disposed` count how often the items of a task were given back and how
 often its envelope was sent, written to disk or freed.
 */
module BatchTasks {
  import opened Prelude

  datatype TaskState = Pending | Running | Ready | Completing | Dumped

  /** What the worker of a task does next. */
  datatype WorkerPc =
    | LinkLock | Link | LinkUnlock
    | Queued
    // batch_task_exec
    | ExecLock | Exec | ExecUnlock(run: bool)
    | Serialize | ReleaseItems | ClearItems
    | ReadyLock | StoreReady | ReadyUnlock
    // batch_task_complete
    | CompleteLock | LoadState | StoreCompleting | CompleteUnlock(dumped: bool)
    | Dispose | ClearEnvelope
    // batch_task_unlink
    | UnlinkLock | Unlink | UnlinkUnlock
    // batch_task_free
    | FreeItems | FreeEnvelope
    | Freed

  datatype Task = Task(
    state: TaskState,
    items: bool,       // `items` is not null
    envelope: bool,    // `envelope` is not NULL
    released: nat,
    disposed: nat,
    claimer: nat,      // the dumper that claimed it, once it is dumped
    pc: WorkerPc)

  /** Where a crash dumper is in `batch_task_dump_pending_all`. */
  datatype Dumper =
    | Stopped
    | DumpLock(attempts: nat)
    | Scan(attempts: nat, at: nat, busy: bool)
    | Claim(attempts: nat, i: nat)
    | ClaimUnlock(i: nat, serialize: bool)
    | DumpSerialize(i: nat)
    | DumpRelease(i: nat)
    | DumpWrite(i: nat)
    | DumpUnlock(attempts: nat, busy: bool)

  datatype Actor = Worker(i: nat) | Crash(d: nat)

  datatype State = State(tasks: seq<Task>, list: seq<nat>, lock: Option<Actor>, dumpers: seq<Dumper>)

  const MAX_ATTEMPTS: nat := 200

  // --------------------------------------------------------------------- workers

  function SetTask(s: State, i: nat, k: Task): State
    requires i < |s.tasks|
  {
    s.(tasks := s.tasks[i := k])
  }

  function Remove(list: seq<nat>, i: nat): seq<nat> {
    if list == [] then []
    else if list[0] == i then list[1..]
    else [list[0]] + Remove(list[1..], i)
  }

  /** Spin on the lock: one try. */
  function Acquire(s: State, i: nat, next: WorkerPc): State
    requires i < |s.tasks|
  {
    if s.lock.Some? then s
    else SetTask(s, i, s.tasks[i].(pc := next)).(lock := Some(Worker(i)))
  }

  function Release(s: State, i: nat, next: WorkerPc): State
    requires i < |s.tasks|
  {
    SetTask(s, i, s.tasks[i].(pc := next)).(lock := None)
  }

  /** A step of the worker of task `i`; `accepted` is whether the pool takes the task. */
  function WorkerStep(s: State, i: nat, accepted: bool): State
    requires i < |s.tasks|
  {
    var k := s.tasks[i];
    match k.pc
    case LinkLock => Acquire(s, i, Link)
    case Link => SetTask(s, i, k.(pc := LinkUnlock)).(list := [i] + s.list)
    case LinkUnlock => Release(s, i, Queued)
    case Queued => SetTask(s, i, k.(pc := if accepted then ExecLock else UnlinkLock))
    case ExecLock => Acquire(s, i, Exec)
    case Exec =>
      if k.state == Pending then SetTask(s, i, k.(state := Running, pc := ExecUnlock(true)))
      else SetTask(s, i, k.(pc := ExecUnlock(false)))
    case ExecUnlock(run) => Release(s, i, if run then Serialize else CompleteLock)
    case Serialize => SetTask(s, i, k.(pc := ReleaseItems))
    case ReleaseItems => SetTask(s, i, k.(released := k.released + 1, pc := ClearItems))
    case ClearItems => SetTask(s, i, k.(items := false, pc := ReadyLock))
    case ReadyLock => Acquire(s, i, StoreReady)
    case StoreReady => SetTask(s, i, k.(state := Ready, pc := ReadyUnlock))
    case ReadyUnlock => Release(s, i, CompleteLock)
    case CompleteLock => Acquire(s, i, LoadState)
    case LoadState => SetTask(s, i, k.(pc := if k.state == Dumped then CompleteUnlock(true) else StoreCompleting))
    case StoreCompleting => SetTask(s, i, k.(state := Completing, pc := CompleteUnlock(false)))
    case CompleteUnlock(dumped) => Release(s, i, if dumped then UnlinkLock else Dispose)
    case Dispose => SetTask(s, i, k.(disposed := k.disposed + 1, pc := ClearEnvelope))
    case ClearEnvelope => SetTask(s, i, k.(envelope := false, pc := UnlinkLock))
    case UnlinkLock => Acquire(s, i, Unlink)
    case Unlink => SetTask(s, i, k.(pc := UnlinkUnlock)).(list := Remove(s.list, i))
    case UnlinkUnlock => Release(s, i, FreeItems)
    case FreeItems =>
      SetTask(s, i, k.(released := k.released + if k.items then 1 else 0, pc := FreeEnvelope))
    case FreeEnvelope =>
      SetTask(s, i, k.(disposed := k.disposed + if k.envelope then 1 else 0, pc := Freed))
    case Freed => s
  }

  /** `process_batch` makes a task. */
  function NewTask(s: State): State {
    s.(tasks := s.tasks + [Task(Pending, true, true, 0, 0, 0, LinkLock)])
  }

  // --------------------------------------------------------------------- dumpers

  function SetDumper(s: State, d: nat, x: Dumper): State
    requires d < |s.dumpers|
  {
    s.(dumpers := s.dumpers[d := x])
  }

  predicate Busy(state: TaskState) {
    state == Running || state == Completing
  }

  /** A step of dumper `d`; `timeout` is whether it gives up on the lock. */
  function DumperStep(s: State, d: nat, timeout: bool): State
    requires d < |s.dumpers| && DumperInRange(s, s.dumpers[d])
  {
    match s.dumpers[d]
    case Stopped => SetDumper(s, d, DumpLock(0))
    case DumpLock(attempts) =>
      if s.lock.None? then SetDumper(s, d, Scan(attempts, 0, false)).(lock := Some(Crash(d)))
      else if timeout then SetDumper(s, d, Stopped)
      else s
    case Scan(attempts, at, busy) =>
      if at >= |s.list| then SetDumper(s, d, DumpUnlock(attempts, busy))
      else
        var k := s.tasks[s.list[at]];
        if k.state == Pending || k.state == Ready then SetDumper(s, d, Claim(attempts, s.list[at]))
        else SetDumper(s, d, Scan(attempts, at + 1, busy || Busy(k.state)))
    case Claim(attempts, i) =>
      var k := s.tasks[i];
      SetDumper(SetTask(s, i, k.(state := Dumped, claimer := d, envelope := false,
                                 items := if k.state == Pending then false else k.items)),
                d, ClaimUnlock(i, k.state == Pending))
    case ClaimUnlock(i, serialize) =>
      SetDumper(s, d, if serialize then DumpSerialize(i) else DumpWrite(i)).(lock := None)
    case DumpSerialize(i) => SetDumper(s, d, DumpRelease(i))
    case DumpRelease(i) =>
      SetDumper(SetTask(s, i, s.tasks[i].(released := s.tasks[i].released + 1)), d, DumpWrite(i))
    case DumpWrite(i) =>
      SetDumper(SetTask(s, i, s.tasks[i].(disposed := s.tasks[i].disposed + 1)), d, DumpLock(0))
    case DumpUnlock(attempts, busy) =>
      SetDumper(s, d, if busy && attempts + 1 <= MAX_ATTEMPTS then DumpLock(attempts + 1) else Stopped).(lock := None)
  }

  /** Task numbers in dumper-local variables and in the list exist. */
  predicate DumperInRange(s: State, x: Dumper) {
    match x
    case Scan(attempts, at, busy) => at < |s.list| ==> s.list[at] < |s.tasks|
    case Claim(attempts, i) => i < |s.tasks|
    case ClaimUnlock(i, serialize) => i < |s.tasks|
    case DumpSerialize(i) => i < |s.tasks|
    case DumpRelease(i) => i < |s.tasks|
    case DumpWrite(i) => i < |s.tasks|
    case _ => true
  }

  // ------------------------------------------------------------------------ runs

  datatype Move = WorkerMove(i: nat, accepted: bool) | CrashMove(d: nat, timeout: bool) | TaskMove

  predicate Enabled(s: State, move: Move) {
    match move
    case WorkerMove(i, accepted) => i < |s.tasks|
    case CrashMove(d, timeout) => d < |s.dumpers| && DumperInRange(s, s.dumpers[d])
    case TaskMove => true
  }

  function Step(s: State, move: Move): State
    requires Enabled(s, move)
  {
    match move
    case WorkerMove(i, accepted) => WorkerStep(s, i, accepted)
    case CrashMove(d, timeout) => DumperStep(s, d, timeout)
    case TaskMove => NewTask(s)
  }

  ghost predicate IsRun(run: seq<State>, dumpers: nat) {
    && |run| > 0 && run[0] == State([], [], None, seq(dumpers, i => Stopped))
    && forall i :: 0 <= i < |run| - 1 ==> exists move :: Enabled(run[i], move) && run[i + 1] == Step(run[i], move)
  }

  // ------------------------------------------------------------------- invariant

  predicate LockedPc(pc: WorkerPc) {
    pc.Link? || pc.LinkUnlock? || pc.Exec? || pc.ExecUnlock? || pc.StoreReady? || pc.ReadyUnlock?
    || pc.LoadState? || pc.StoreCompleting? || pc.CompleteUnlock? || pc.Unlink? || pc.UnlinkUnlock?
  }

  predicate InList(pc: WorkerPc) {
    !pc.LinkLock? && !pc.Link? && !pc.UnlinkUnlock? && !pc.FreeItems? && !pc.FreeEnvelope? && !pc.Freed?
  }

  /** The states a task can be in at each position of its worker. */
  predicate StateOk(k: Task) {
    match k.pc
    case LinkLock => k.state == Pending
    case Link => k.state == Pending
    case LinkUnlock => k.state == Pending
    case Queued => k.state == Pending || k.state == Dumped
    case ExecLock => k.state == Pending || k.state == Dumped
    case Exec => k.state == Pending || k.state == Dumped
    case ExecUnlock(run) => k.state == if run then Running else Dumped
    case Serialize => k.state == Running
    case ReleaseItems => k.state == Running
    case ClearItems => k.state == Running
    case ReadyLock => k.state == Running
    case StoreReady => k.state == Running
    case ReadyUnlock => k.state == Ready
    case CompleteLock => k.state == Ready || k.state == Dumped
    case LoadState => k.state == Ready || k.state == Dumped
    case StoreCompleting => k.state == Ready
    case CompleteUnlock(dumped) => k.state == if dumped then Dumped else Completing
    case Dispose => k.state == Completing
    case ClearEnvelope => k.state == Completing
    case _ => k.state == Pending || k.state == Completing || k.state == Dumped
  }

  /** Who owns items and envelope, by state: the task, or nobody any more. */
  predicate OwnershipOk(k: Task) {
    match k.state
    case Pending =>
      && k.items && k.envelope
      && k.released == (if k.pc.FreeEnvelope? || k.pc.Freed? then 1 else 0)
      && k.disposed == (if k.pc.Freed? then 1 else 0)
    case Running =>
      && k.envelope && k.disposed == 0
      && (k.pc.ReadyLock? || k.pc.StoreReady? <==> !k.items)
      && k.released == (if k.items && !k.pc.ClearItems? then 0 else 1)
    case Ready => !k.items && k.envelope && k.released == 1 && k.disposed == 0
    case Completing =>
      && !k.items && k.released == 1
      && (k.pc.CompleteUnlock? || k.pc.Dispose? || k.pc.ClearEnvelope? <==> k.envelope)
      && k.disposed == (if k.envelope && !k.pc.ClearEnvelope? then 0 else 1)
    case Dumped => !k.items && !k.envelope && k.released <= 1 && k.disposed <= 1
  }

  /** The task whose items or envelope the dumper holds. */
  function Held(x: Dumper): Option<nat> {
    match x
    case ClaimUnlock(i, serialize) => Some(i)
    case DumpSerialize(i) => Some(i)
    case DumpRelease(i) => Some(i)
    case DumpWrite(i) => Some(i)
    case _ => None
  }

  /** The dumper still has the items. */
  predicate HasItems(x: Dumper) {
    x.DumpSerialize? || x.DumpRelease? || (x.ClaimUnlock? && x.serialize)
  }

  /** What is still to be done for a dumped task is held by its claimer. */
  predicate DumpedOk(k: Task, i: nat, dumpers: seq<Dumper>) {
    k.state == Dumped ==>
      && k.claimer < |dumpers|
      && var x := dumpers[k.claimer];
         && k.released == (if Held(x) == Some(i) && HasItems(x) then 0 else 1)
         && k.disposed == (if Held(x) == Some(i) then 0 else 1)
  }

  predicate TaskOk(s: State, i: nat)
    requires i < |s.tasks|
  {
    var k := s.tasks[i];
    && StateOk(k) && OwnershipOk(k) && DumpedOk(k, i, s.dumpers)
    && (InList(k.pc) <==> i in s.list)
    && (LockedPc(k.pc) <==> s.lock == Some(Worker(i)))
  }

  predicate CrashLocked(x: Dumper) {
    x.Scan? || x.Claim? || x.ClaimUnlock? || x.DumpUnlock?
  }

  predicate DumperOk(s: State, d: nat)
    requires d < |s.dumpers|
  {
    var x := s.dumpers[d];
    && (CrashLocked(x) <==> s.lock == Some(Crash(d)))
    && (x.Claim? ==> x.i < |s.tasks| && (s.tasks[x.i].state == Pending || s.tasks[x.i].state == Ready) && x.i in s.list)
    && (Held(x).Some? ==>
          Held(x).value < |s.tasks| && s.tasks[Held(x).value].state == Dumped && s.tasks[Held(x).value].claimer == d)
    && (x.DumpLock? || x.Scan? || x.Claim? || x.DumpUnlock? ==> x.attempts <= MAX_ATTEMPTS)
  }

  predicate Distinct(list: seq<nat>) {
    forall a, b :: 0 <= a < b < |list| ==> list[a] != list[b]
  }

  predicate Inv(s: State) {
    && Distinct(s.list)
    && (forall at :: 0 <= at < |s.list| ==> s.list[at] < |s.tasks|)
    && (s.lock.Some? && s.lock.value.Worker? ==> s.lock.value.i < |s.tasks|)
    && (s.lock.Some? && s.lock.value.Crash? ==> s.lock.value.d < |s.dumpers|)
    && (forall i: nat :: i < |s.tasks| ==> TaskOk(s, i))
    && (forall d: nat :: d < |s.dumpers| ==> DumperOk(s, d))
  }

  // ---------------------------------------------------------------------- proofs

  lemma {:induction false} RemoveRemoves(list: seq<nat>, i: nat)
    requires Distinct(list)
    ensures Distinct(Remove(list, i))
    ensures forall j :: j in Remove(list, i) <==> j in list && j != i
  {
    if list != [] && list[0] != i {
      var rest := list[1..];
      assert Distinct(rest);
      RemoveRemoves(rest, i);
      assert list == [list[0]] + rest;
      assert list[0] !in rest;
    } else if list != [] {
      assert list == [i] + list[1..];
      assert i !in list[1..];
    }
  }

  /** A worker changes its own task. */
  lemma TaskUpdate(s: State, i: nat, k: Task)
    requires Inv(s) && i < |s.tasks|
    requires StateOk(k) && OwnershipOk(k) && DumpedOk(k, i, s.dumpers)
    requires InList(k.pc) == InList(s.tasks[i].pc) && LockedPc(k.pc) == LockedPc(s.tasks[i].pc)
    requires k.state == s.tasks[i].state || (LockedPc(k.pc) && s.tasks[i].state != Dumped)
    requires k.claimer == s.tasks[i].claimer
    ensures Inv(SetTask(s, i, k))
  {
    hide StateOk, OwnershipOk, DumpedOk, InList, LockedPc;
    var s' := SetTask(s, i, k);
    assert TaskOk(s, i);
    forall j: nat | j < |s'.tasks|
      ensures TaskOk(s', j)
    {
      assert TaskOk(s, j);
    }
    forall d: nat | d < |s'.dumpers|
      ensures DumperOk(s', d)
    {
      assert DumperOk(s, d);
    }
  }

  /** A worker takes or gives back the lock. */
  lemma LockUpdate(s: State, i: nat, pc: WorkerPc, lock: Option<Actor>)
    requires Inv(s) && i < |s.tasks|
    requires var k := s.tasks[i].(pc := pc); StateOk(k) && OwnershipOk(k) && InList(pc) == InList(s.tasks[i].pc)
    requires if LockedPc(pc) then s.lock.None? && lock == Some(Worker(i)) else s.lock == Some(Worker(i)) && lock.None?
    ensures Inv(SetTask(s, i, s.tasks[i].(pc := pc)).(lock := lock))
  {
    hide StateOk, OwnershipOk, InList, LockedPc;
    var s' := SetTask(s, i, s.tasks[i].(pc := pc)).(lock := lock);
    assert TaskOk(s, i);
    forall j: nat | j < |s'.tasks|
      ensures TaskOk(s', j)
    {
      assert TaskOk(s, j);
    }
    forall d: nat | d < |s'.dumpers|
      ensures DumperOk(s', d)
    {
      assert DumperOk(s, d);
    }
  }

  /** A worker that holds the lock puts its task into the list or takes it out. */
  lemma ListUpdate(s: State, i: nat, pc: WorkerPc, list: seq<nat>)
    requires Inv(s) && i < |s.tasks| && s.lock == Some(Worker(i)) && LockedPc(pc)
    requires var k := s.tasks[i].(pc := pc); StateOk(k) && OwnershipOk(k)
    requires Distinct(list) && forall j :: j in list <==> if j == i then InList(pc) else j in s.list
    ensures Inv(SetTask(s, i, s.tasks[i].(pc := pc)).(list := list))
  {
    hide StateOk, OwnershipOk, InList, LockedPc;
    var s' := SetTask(s, i, s.tasks[i].(pc := pc)).(list := list);
    assert TaskOk(s, i);
    forall j: nat | j < |s'.tasks|
      ensures TaskOk(s', j)
    {
      assert TaskOk(s, j);
    }
    forall d: nat | d < |s'.dumpers|
      ensures DumperOk(s', d)
    {
      assert DumperOk(s, d);
    }
    forall at | 0 <= at < |list|
      ensures list[at] < |s'.tasks|
    {
      assert list[at] in list;
    }
  }

  lemma WorkerKeepsInv(s: State, i: nat, accepted: bool)
    requires Inv(s) && i < |s.tasks|
    ensures Inv(WorkerStep(s, i, accepted))
  {
    hide Inv;
    var pc := s.tasks[i].pc;
    if pc.Link? {
      LinkKeepsInv(s, i);
    } else if pc.Unlink? {
      UnlinkKeepsInv(s, i);
    } else if pc.LinkLock? || pc.ExecLock? || pc.ReadyLock? || pc.CompleteLock? || pc.UnlinkLock? {
      WorkerLocks(s, i, accepted);
    } else if LockedPc(pc) && LockedPc(WorkerStep(s, i, accepted).tasks[i].pc) {
      WorkerStores(s, i, accepted);
    } else if LockedPc(pc) {
      WorkerUnlocks(s, i, accepted);
    } else if pc.Dispose? || pc.ClearEnvelope? || pc.FreeItems? || pc.FreeEnvelope? {
      WorkerDisposes(s, i, accepted);
    } else if !pc.Freed? {
      WorkerWorks(s, i, accepted);
    }
  }

  /** The compare-and-swap and the stores made under the lock. */
  lemma WorkerStores(s: State, i: nat, accepted: bool)
    requires Inv(s) && i < |s.tasks|
    requires var pc := s.tasks[i].pc; pc.Exec? || pc.StoreReady? || pc.LoadState? || pc.StoreCompleting?
    ensures Inv(WorkerStep(s, i, accepted))
  {
    assert TaskOk(s, i);
    hide Inv;
    TaskUpdate(s, i, WorkerStep(s, i, accepted).tasks[i]);
  }

  lemma WorkerUnlocks(s: State, i: nat, accepted: bool)
    requires Inv(s) && i < |s.tasks|
    requires var pc := s.tasks[i].pc;
      pc.LinkUnlock? || pc.ExecUnlock? || pc.ReadyUnlock? || pc.CompleteUnlock? || pc.UnlinkUnlock?
    ensures Inv(WorkerStep(s, i, accepted))
  {
    assert TaskOk(s, i);
    hide Inv;
    LockUpdate(s, i, WorkerStep(s, i, accepted).tasks[i].pc, None);
  }

  /** The work done without the lock. */
  lemma WorkerWorks(s: State, i: nat, accepted: bool)
    requires Inv(s) && i < |s.tasks|
    requires var pc := s.tasks[i].pc; pc.Queued? || pc.Serialize? || pc.ReleaseItems? || pc.ClearItems?
    ensures Inv(WorkerStep(s, i, accepted))
  {
    assert TaskOk(s, i);
    hide Inv;
    TaskUpdate(s, i, WorkerStep(s, i, accepted).tasks[i]);
  }

  lemma WorkerDisposes(s: State, i: nat, accepted: bool)
    requires Inv(s) && i < |s.tasks|
    requires var pc := s.tasks[i].pc; pc.Dispose? || pc.ClearEnvelope? || pc.FreeItems? || pc.FreeEnvelope?
    ensures Inv(WorkerStep(s, i, accepted))
  {
    assert TaskOk(s, i);
    hide Inv;
    TaskUpdate(s, i, WorkerStep(s, i, accepted).tasks[i]);
  }

  lemma WorkerLocks(s: State, i: nat, accepted: bool)
    requires Inv(s) && i < |s.tasks|
    requires var pc := s.tasks[i].pc;
             pc.LinkLock? || pc.ExecLock? || pc.ReadyLock? || pc.CompleteLock? || pc.UnlinkLock?
    ensures Inv(WorkerStep(s, i, accepted))
  {
    assert TaskOk(s, i);
    if s.lock.None? {
      hide Inv;
      LockUpdate(s, i, WorkerStep(s, i, accepted).tasks[i].pc, Some(Worker(i)));
    }
  }

  lemma LinkKeepsInv(s: State, i: nat)
    requires Inv(s) && i < |s.tasks| && s.tasks[i].pc.Link?
    ensures Inv(SetTask(s, i, s.tasks[i].(pc := LinkUnlock)).(list := [i] + s.list))
  {
    assert TaskOk(s, i);
    var list := [i] + s.list;
    assert Distinct(list);
    hide Inv;
    ListUpdate(s, i, LinkUnlock, list);
  }

  lemma UnlinkKeepsInv(s: State, i: nat)
    requires Inv(s) && i < |s.tasks| && s.tasks[i].pc.Unlink?
    ensures Inv(SetTask(s, i, s.tasks[i].(pc := UnlinkUnlock)).(list := Remove(s.list, i)))
  {
    assert TaskOk(s, i);
    RemoveRemoves(s.list, i);
    hide Inv;
    ListUpdate(s, i, UnlinkUnlock, Remove(s.list, i));
  }

  /** A dumper moves without touching a task. */
  lemma DumperUpdate(s: State, d: nat, x: Dumper, lock: Option<Actor>)
    requires Inv(s) && d < |s.dumpers| && Held(x) == Held(s.dumpers[d]) && HasItems(x) == HasItems(s.dumpers[d])
    requires x.Claim? ==> x.i in s.list && (s.tasks[x.i].state == Pending || s.tasks[x.i].state == Ready)
    requires x.DumpLock? || x.Scan? || x.Claim? || x.DumpUnlock? ==> x.attempts <= MAX_ATTEMPTS
    requires if CrashLocked(x) then s.lock in {None, Some(Crash(d))} && lock == Some(Crash(d))
             else lock == if s.lock == Some(Crash(d)) then None else s.lock
    ensures Inv(SetDumper(s, d, x).(lock := lock))
  {
    hide StateOk, OwnershipOk, InList, LockedPc, HasItems;
    var s' := SetDumper(s, d, x).(lock := lock);
    assert DumperOk(s, d);
    forall j: nat | j < |s'.tasks|
      ensures TaskOk(s', j)
    {
      assert TaskOk(s, j);
    }
    forall e: nat | e < |s'.dumpers|
      ensures DumperOk(s', e)
    {
      assert DumperOk(s, e);
    }
  }

  /** A dumper that has claimed a task changes it. */
  lemma DumperTaskUpdate(s: State, d: nat, i: nat, k: Task, x: Dumper)
    requires Inv(s) && d < |s.dumpers| && i < |s.tasks|
    requires Held(s.dumpers[d]) == Some(i) || (Held(s.dumpers[d]).None? && s.dumpers[d].Claim? && s.dumpers[d].i == i)
    requires Held(x) == Some(i) || Held(x).None?
    requires k.state == Dumped && k.claimer == d && k.pc == s.tasks[i].pc
    requires StateOk(k) && OwnershipOk(k) && DumpedOk(k, i, s.dumpers[d := x])
    requires CrashLocked(x) == CrashLocked(s.dumpers[d]) && !x.Claim? && !x.Scan? && !x.DumpUnlock?
    requires x.DumpLock? ==> x.attempts == 0
    ensures Inv(SetDumper(SetTask(s, i, k), d, x))
  {
    hide StateOk, OwnershipOk, InList, LockedPc, HasItems;
    var s' := SetDumper(SetTask(s, i, k), d, x);
    assert DumperOk(s, d) && TaskOk(s, i);
    forall j: nat | j < |s'.tasks|
      ensures TaskOk(s', j)
    {
      assert TaskOk(s, j);
    }
    forall e: nat | e < |s'.dumpers|
      ensures DumperOk(s', e)
    {
      assert DumperOk(s, e);
    }
  }

  lemma DumperKeepsInv(s: State, d: nat, timeout: bool)
    requires Inv(s) && d < |s.dumpers|
    ensures DumperInRange(s, s.dumpers[d])
    ensures Inv(DumperStep(s, d, timeout))
  {
    assert DumperOk(s, d);
    var x := s.dumpers[d];
    if x.Scan? && x.at < |s.list| {
      assert s.list[x.at] in s.list;
    }
    var s' := DumperStep(s, d, timeout);
    if x.Claim? || x.DumpRelease? || x.DumpWrite? {
      assert TaskOk(s, x.i);
      hide Inv;
      DumperTaskUpdate(s, d, x.i, s'.tasks[x.i], s'.dumpers[d]);
    } else {
      hide Inv;
      DumperUpdate(s, d, s'.dumpers[d], s'.lock);
    }
  }

  lemma {:induction false} RunKeepsInv(run: seq<State>, dumpers: nat, n: nat)
    requires IsRun(run, dumpers) && n < |run|
    ensures Inv(run[n])
  {
    if n > 0 {
      RunKeepsInv(run, dumpers, n - 1);
      var s := run[n - 1];
      assert n - 1 < |run| - 1 && run[n - 1 + 1] == run[n];
      var move :| Enabled(s, move) && run[n] == Step(s, move);
      match move
      case WorkerMove(i, accepted) => WorkerKeepsInv(s, i, accepted);
      case CrashMove(d, timeout) => DumperKeepsInv(s, d, timeout);
      case TaskMove => NewTaskKeepsInv(s);
    }
  }

  lemma NewTaskKeepsInv(s: State)
    requires Inv(s)
    ensures Inv(NewTask(s))
  {
    var s' := NewTask(s);
    forall j: nat | j < |s'.tasks|
      ensures TaskOk(s', j)
    {
      assert j < |s.tasks| ==> TaskOk(s, j);
    }
    forall d: nat | d < |s'.dumpers|
      ensures DumperOk(s', d)
    {
      assert DumperOk(s, d);
    }
  }

  // -------------------------------------------------------------------- theorems

  /** No dumper still has to deal with the task. */
  predicate Settled(s: State, i: nat) {
    forall d: nat :: d < |s.dumpers| ==> Held(s.dumpers[d]) != Some(i)
  }

  /** In every run, items are released at most once and the envelope is disposed of at most
      once; when the worker is through with the task and no dumper holds any of it, both
      have happened exactly once. */
  lemma DisposedExactlyOnce(run: seq<State>, dumpers: nat, n: nat, i: nat)
    requires IsRun(run, dumpers) && n < |run| && i < |run[n].tasks|
    ensures run[n].tasks[i].released <= 1 && run[n].tasks[i].disposed <= 1
    ensures run[n].tasks[i].pc.Freed? && Settled(run[n], i) ==>
              run[n].tasks[i].released == 1 && run[n].tasks[i].disposed == 1
  {
    hide IsRun;
    RunKeepsInv(run, dumpers, n);
    assert TaskOk(run[n], i);
  }

  /** What an actor is about to touch exists and is still owned. */
  ghost predicate Owned(s: State) {
    // a worker serializes and releases items it has, and disposes of an envelope it has
    && (forall i: nat :: i < |s.tasks| && (s.tasks[i].pc.Serialize? || s.tasks[i].pc.ReleaseItems?) ==>
          s.tasks[i].items && s.tasks[i].envelope && s.tasks[i].released == 0)
    && (forall i: nat :: i < |s.tasks| && s.tasks[i].pc.Dispose? ==> s.tasks[i].envelope && s.tasks[i].disposed == 0)
    // a scanning dumper only sees tasks that are not freed
    && (forall at :: 0 <= at < |s.list| ==> s.list[at] < |s.tasks| && !s.tasks[s.list[at]].pc.Freed?)
    // a claimed task is claimed by one dumper
    && (forall d: nat, e: nat :: d < |s.dumpers| && e < |s.dumpers| && d != e && Held(s.dumpers[d]).Some? ==>
          Held(s.dumpers[d]) != Held(s.dumpers[e]))
  }

  lemma NothingTouchedAfterFree(run: seq<State>, dumpers: nat, n: nat)
    requires IsRun(run, dumpers) && n < |run|
    ensures Owned(run[n])
  {
    hide IsRun;
    RunKeepsInv(run, dumpers, n);
    var s := run[n];
    forall at | 0 <= at < |s.list|
      ensures s.list[at] < |s.tasks| && !s.tasks[s.list[at]].pc.Freed?
    {
      assert s.list[at] in s.list && TaskOk(s, s.list[at]);
    }
    forall i: nat | i < |s.tasks|
      ensures StateOk(s.tasks[i]) && OwnershipOk(s.tasks[i])
    {
      assert TaskOk(s, i);
    }
    forall d: nat, e: nat | d < |s.dumpers| && e < |s.dumpers| && d != e && Held(s.dumpers[d]).Some?
      ensures Held(s.dumpers[d]) != Held(s.dumpers[e])
    {
      assert DumperOk(s, d) && DumperOk(s, e);
    }
    hide Inv, TaskOk, DumperOk, DumpedOk, InList, LockedPc;
  }

  /** The tasks nobody has claimed. */
  function Unclaimed(tasks: seq<Task>): set<nat> {
    set i: nat | i < |tasks| && tasks[i].state != Dumped
  }

  /** How many more times dumper `d` can go around its loop: lexicographically, the
      unclaimed tasks and then the attempts that are left. */
  function Rank(s: State, attempts: int): int {
    |Unclaimed(s.tasks)| * (MAX_ATTEMPTS + 1) + (MAX_ATTEMPTS - attempts)
  }

  /** Dumper `d` is in the round of its loop that started at rank `r`. */
  predicate InRound(s: State, d: nat, r: int)
    requires d < |s.dumpers|
  {
    match s.dumpers[d]
    case Stopped => true
    case DumpLock(attempts) => Rank(s, attempts) <= r
    case Scan(attempts, at, busy) => Rank(s, attempts) <= r
    case Claim(attempts, i) => Rank(s, attempts) <= r
    case DumpUnlock(attempts, busy) => Rank(s, attempts) <= r
    case _ => Rank(s, 0) < r
  }

  lemma ClaimShrinks(tasks: seq<Task>, i: nat, k: Task)
    requires i < |tasks| && (k.state == Dumped || tasks[i].state != Dumped)
    ensures |Unclaimed(tasks[i := k])| == |Unclaimed(tasks)|
              - (if k.state == Dumped && tasks[i].state != Dumped then 1 else 0)
  {
    assert Unclaimed(tasks[i := k]) == if k.state == Dumped then Unclaimed(tasks) - {i} else Unclaimed(tasks);
  }

  lemma WorkersClaimNothing(s: State, i: nat, accepted: bool)
    requires Inv(s) && i < |s.tasks|
    ensures |Unclaimed(WorkerStep(s, i, accepted).tasks)| == |Unclaimed(s.tasks)|
    ensures WorkerStep(s, i, accepted).dumpers == s.dumpers
  {
    assert TaskOk(s, i);
    hide Inv, OwnershipOk, DumpedOk;
    ClaimShrinks(s.tasks, i, WorkerStep(s, i, accepted).tasks[i]);
  }

  lemma DumpersOnlyClaim(s: State, d: nat, timeout: bool)
    requires Inv(s) && d < |s.dumpers| && DumperInRange(s, s.dumpers[d])
    ensures |Unclaimed(DumperStep(s, d, timeout).tasks)|
         == |Unclaimed(s.tasks)| - (if s.dumpers[d].Claim? then 1 else 0)
  {
    assert DumperOk(s, d);
    hide Inv;
    var x := s.dumpers[d];
    if x.Claim? || x.DumpRelease? || x.DumpWrite? {
      ClaimShrinks(s.tasks, x.i, DumperStep(s, d, timeout).tasks[x.i]);
    }
  }

  /** Dumper `d` itself moves. */
  lemma OwnMove(s: State, d: nat, timeout: bool, r: int)
    requires Inv(s) && d < |s.dumpers| && DumperInRange(s, s.dumpers[d])
    requires InRound(s, d, r) && !s.dumpers[d].Stopped?
    ensures var s' := DumperStep(s, d, timeout);
      && InRound(s', d, r)
      && (s'.dumpers[d].DumpLock? && s'.dumpers[d] != s.dumpers[d] ==>
            0 <= Rank(s', s'.dumpers[d].attempts) < r)
  {
    assert DumperOk(s, d);
    DumpersOnlyClaim(s, d, timeout);
    hide Inv, Unclaimed;
  }

  /** With a fixed set of tasks, whatever the others do, a dumper that comes back to the
      head of its loop has a lower rank, and a rank is never negative. */
  lemma DumpLoopTerminates(s: State, move: Move, d: nat, r: int)
    requires Inv(s) && Enabled(s, move) && !move.TaskMove?
    requires d < |s.dumpers| && InRound(s, d, r) && !s.dumpers[d].Stopped?
    ensures var s' := Step(s, move);
      && InRound(s', d, r)
      && (s'.dumpers[d].DumpLock? && s'.dumpers[d] != s.dumpers[d] ==>
            0 <= Rank(s', s'.dumpers[d].attempts) < r && InRound(s', d, r - 1))
  {
    hide Inv, Unclaimed;
    match move
    case WorkerMove(i, accepted) => WorkersClaimNothing(s, i, accepted);
    case CrashMove(e, timeout) =>
      if e == d {
        OwnMove(s, d, timeout, r);
      } else {
        DumpersOnlyClaim(s, e, timeout);
      }
  }

  ghost predicate Moves(s: State, s': State) {
    exists move :: Enabled(s, move) && !move.TaskMove? && s' == Step(s, move)
  }

  /** A stretch of a run, from the head of dumper `d`'s loop, in which no task is added and
      the dumper does not stop. */
  ghost predicate IsDump(run: seq<State>, d: nat) {
    && |run| > 0 && Inv(run[0])
    && (forall n :: 0 <= n < |run| ==> d < |run[n].dumpers| && !run[n].dumpers[d].Stopped?)
    && run[0].dumpers[d].DumpLock?
    && forall n :: 0 <= n < |run| - 1 ==> Moves(run[n], run[n + 1])
  }

  /** How often the dumper came back to the head of its loop before state `n`. */
  function Rounds(run: seq<State>, d: nat, n: nat): nat
    requires n < |run| && forall m :: 0 <= m < |run| ==> d < |run[m].dumpers|
  {
    if n == 0 then 0
    else
      Rounds(run, d, n - 1)
      + if run[n].dumpers[d].DumpLock? && run[n].dumpers[d] != run[n - 1].dumpers[d] then 1 else 0
  }

  lemma MovesKeepInv(s: State, s': State, d: nat, r: int)
    requires Inv(s) && Moves(s, s') && d < |s.dumpers| && InRound(s, d, r) && !s.dumpers[d].Stopped?
    ensures Inv(s') && d < |s'.dumpers|
    ensures InRound(s', d, r)
    ensures s'.dumpers[d].DumpLock? && s'.dumpers[d] != s.dumpers[d] ==> InRound(s', d, r - 1)
  {
    hide Inv, InRound;
    var move :| Enabled(s, move) && !move.TaskMove? && s' == Step(s, move);
    DumpLoopTerminates(s, move, d, r);
    match move
    case WorkerMove(i, accepted) => WorkerKeepsInv(s, i, accepted);
    case CrashMove(e, timeout) => DumperKeepsInv(s, e, timeout);
  }

  lemma {:induction false} RoundsLowerRank(run: seq<State>, d: nat, n: nat)
    requires IsDump(run, d) && n < |run|
    ensures Inv(run[n]) && InRound(run[n], d, Rank(run[0], run[0].dumpers[d].attempts) - Rounds(run, d, n))
  {
    hide Inv, Moves;
    if n > 0 {
      RoundsLowerRank(run, d, n - 1);
      assert Moves(run[n - 1], run[n - 1 + 1]);
      hide InRound, Rank;
      MovesKeepInv(run[n - 1], run[n], d, Rank(run[0], run[0].dumpers[d].attempts) - Rounds(run, d, n - 1));
    }
  }

  /** The dump loop goes around a bounded number of times. */
  lemma DumpRoundsBounded(run: seq<State>, d: nat, n: nat)
    requires IsDump(run, d) && n < |run|
    ensures Rounds(run, d, n) <= Rank(run[0], run[0].dumpers[d].attempts)
  {
    hide Moves;
    RoundsLowerRank(run, d, n);
    RankNotNegative(run[n], d, Rank(run[0], run[0].dumpers[d].attempts) - Rounds(run, d, n));
  }

  lemma RankNotNegative(s: State, d: nat, r: int)
    requires Inv(s) && d < |s.dumpers| && !s.dumpers[d].Stopped? && InRound(s, d, r)
    ensures r >= 0
  {
    assert DumperOk(s, d);
  }
}
