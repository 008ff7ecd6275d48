/**
 The observer registry of a scope (src/sentry_scope.c).

 Observers are notified from the first to the last while their callbacks may add observers,
 remove observers (themselves or others) and start further notifications, to any depth.  A
 removal during a notification leaves a tombstone; the end of the outermost notification
 closes the gaps.

 `Registry` is the reference: a plain list without tombstones, in which a notification walks
 over the observers that were registered when it started.  The class `Scope` is the array
 with tombstones, and every method of it is proved to do what the reference does.
 */
module ScopeObservers {
  import opened Prelude

  /** An observer, told apart by the number of its registration, and the notifications for
      which it has a callback. */
  datatype Observer = Observer(id: nat, kinds: set<nat>)

  /** What callers and callbacks do.  `turns` says what the callbacks do that a notification
      calls, in the order in which they are called. */
  datatype Action = Add(kinds: set<nat>) | Remove(id: nat) | Notify(kind: nat, turns: Turns)
  datatype Script = Done | Then(action: Action, rest: Script)
  datatype Turns = Silent | Turn(script: Script, next: Turns)

  /** What happened: a callback was called by the notification at nesting level `depth`, or an
      observer was removed. */
  datatype Event = Called(id: nat, kind: nat, depth: nat) | Removed(id: nat)

  datatype Registry = Registry(observers: seq<Observer>, nextId: nat, depth: nat, log: seq<Event>)

  // ------------------------------------------------------------------- reference

  function Without(observers: seq<Observer>, id: nat): seq<Observer> {
    if observers == [] then []
    else if observers[0].id == id then observers[1..]
    else [observers[0]] + Without(observers[1..], id)
  }

  predicate Registered(observers: seq<Observer>, id: nat) {
    exists i :: 0 <= i < |observers| && observers[i].id == id
  }

  function Apply(r: Registry, action: Action): Registry
    decreases action
  {
    match action
    case Add(kinds) => r.(observers := r.observers + [Observer(r.nextId, kinds)], nextId := r.nextId + 1)
    case Remove(id) =>
      if Registered(r.observers, id)
      then r.(observers := Without(r.observers, id), log := r.log + [Removed(id)])
      else r
    case Notify(kind, turns) =>
      Visit(r.(depth := r.depth + 1), r.observers, kind, turns).(depth := r.depth)
  }

  function Perform(r: Registry, script: Script): Registry
    decreases script
  {
    if script.Done? then r else Perform(Apply(r, script.action), script.rest)
  }

  /** The registry after the call of observer `o` and what its callback did. */
  function AfterCall(r: Registry, o: Observer, kind: nat, turns: Turns): Registry
    decreases turns, 0, 0
  {
    var called := r.(log := r.log + [Called(o.id, kind, r.depth)]);
    if turns.Silent? then called else Perform(called, turns.script)
  }

  function Later(turns: Turns): Turns {
    if turns.Silent? then Silent else turns.next
  }

  /** The notification of the observers in `snapshot` that are still registered at their turn. */
  function Visit(r: Registry, snapshot: seq<Observer>, kind: nat, turns: Turns): Registry
    decreases turns, |snapshot|, 1
  {
    if snapshot == [] then r
    else
      var o := snapshot[0];
      if o in r.observers && kind in o.kinds
      then Visit(AfterCall(r, o, kind, turns), snapshot[1..], kind, Later(turns))
      else Visit(r, snapshot[1..], kind, turns)
  }

  // ---------------------------------------------------------------------- array

  /** The registered observers among the entries of the array. */
  function Live(entries: seq<Option<Observer>>): seq<Observer> {
    if entries == [] then []
    else Live(entries[..|entries| - 1]) + LiveOne(entries[|entries| - 1])
  }

  /** The array without its tombstones. */
  function Closed(entries: seq<Option<Observer>>): seq<Option<Observer>> {
    if entries == [] then []
    else
      var last := entries[|entries| - 1];
      Closed(entries[..|entries| - 1]) + if last.Some? then [last] else []
  }

  /** Registration numbers grow along the array and stay below `nextId`. */
  predicate Ordered(entries: seq<Option<Observer>>, nextId: nat) {
    && (forall i :: 0 <= i < |entries| && entries[i].Some? ==> entries[i].value.id < nextId)
    && (forall i, j :: 0 <= i < j < |entries| && entries[i].Some? && entries[j].Some? ==>
          entries[i].value.id < entries[j].value.id)
  }

  /** What happens to the array between two moments of one notification: entries become
      tombstones or stay, and new ones come after them. */
  predicate Stable(before: seq<Option<Observer>>, nextId: nat, after: seq<Option<Observer>>) {
    && |before| <= |after|
    && (forall i :: 0 <= i < |before| ==> after[i] == before[i] || after[i].None?)
    && (forall i :: |before| <= i < |after| && after[i].Some? ==> nextId <= after[i].value.id)
  }

  lemma {:induction false} LiveAppend(a: seq<Option<Observer>>, b: seq<Option<Observer>>)
    ensures Live(a + b) == Live(a) + Live(b)
  {
    if b == [] {
      assert a + b == a;
    } else {
      var k := |b| - 1;
      assert (a + b)[..|a + b| - 1] == a + b[..k];
      LiveAppend(a, b[..k]);
    }
  }

  function LiveOne(entry: Option<Observer>): seq<Observer> {
    if entry.Some? then [entry.value] else []
  }

  lemma LivePush(entries: seq<Option<Observer>>, entry: Option<Observer>)
    ensures Live(entries + [entry]) == Live(entries) + LiveOne(entry)
  {
    assert (entries + [entry])[..|entries|] == entries;
  }

  lemma {:induction false} LiveSplit(entries: seq<Option<Observer>>, i: nat)
    requires i < |entries|
    ensures Live(entries) == Live(entries[..i]) + LiveOne(entries[i]) + Live(entries[i + 1..])
  {
    hide Live;
    assert entries == entries[..i] + [entries[i]] + entries[i + 1..];
    LiveAppend(entries[..i] + [entries[i]], entries[i + 1..]);
    LivePush(entries[..i], entries[i]);
  }

  lemma {:induction false} LiveHas(entries: seq<Option<Observer>>, o: Observer)
    ensures o in Live(entries) <==> exists i :: 0 <= i < |entries| && entries[i] == Some(o)
  {
    if entries != [] {
      var k := |entries| - 1;
      LiveHas(entries[..k], o);
      assert forall i :: 0 <= i < k ==> entries[..k][i] == entries[i];
    }
  }

  lemma LiveRegistered(entries: seq<Option<Observer>>, id: nat)
    ensures Registered(Live(entries), id)
       <==> exists i :: 0 <= i < |entries| && entries[i].Some? && entries[i].value.id == id
  {
    if i :| 0 <= i < |entries| && entries[i].Some? && entries[i].value.id == id {
      LiveHas(entries, entries[i].value);
    }
    if Registered(Live(entries), id) {
      var k :| 0 <= k < |Live(entries)| && Live(entries)[k].id == id;
      LiveHas(entries, Live(entries)[k]);
    }
  }

  lemma {:induction false} WithoutMiddle(a: seq<Observer>, o: Observer, b: seq<Observer>)
    requires forall i :: 0 <= i < |a| ==> a[i].id != o.id
    ensures Without(a + [o] + b, o.id) == a + b
  {
    if a == [] {
      assert a + [o] + b == [o] + b;
      assert a + b == b;
    } else {
      WithoutMiddle(a[1..], o, b);
      assert (a + [o] + b)[1..] == a[1..] + [o] + b;
      assert a + b == [a[0]] + (a[1..] + b);
    }
  }

  lemma FrontDiffers(entries: seq<Option<Observer>>, nextId: nat, i: nat)
    requires Ordered(entries, nextId) && i < |entries| && entries[i].Some?
    ensures forall k :: 0 <= k < |Live(entries[..i])| ==> Live(entries[..i])[k].id != entries[i].value.id
  {
    var front := Live(entries[..i]);
    forall k | 0 <= k < |front|
      ensures front[k].id != entries[i].value.id
    {
      LiveHas(entries[..i], front[k]);
    }
  }

  /** Taking entry `i` out of the array takes that observer out of the list. */
  lemma LiveGap(entries: seq<Option<Observer>>, i: nat)
    requires i < |entries|
    ensures Live(entries[i := None]) == Live(entries[..i]) + Live(entries[i + 1..])
  {
    hide Live;
    var gone := entries[i := None];
    assert gone[..i] == entries[..i] && gone[i + 1..] == entries[i + 1..];
    LiveSplit(gone, i);
  }

  lemma {:induction false} LiveWithout(entries: seq<Option<Observer>>, nextId: nat, i: nat)
    requires Ordered(entries, nextId) && i < |entries| && entries[i].Some?
    ensures Live(entries[..i] + entries[i + 1..]) == Without(Live(entries), entries[i].value.id)
    ensures Live(entries[i := None]) == Without(Live(entries), entries[i].value.id)
    ensures Registered(Live(entries), entries[i].value.id)
  {
    hide Live, Without, Registered, Ordered;
    LiveRegistered(entries, entries[i].value.id);
    FrontDiffers(entries, nextId, i);
    LiveSplit(entries, i);
    LiveAppend(entries[..i], entries[i + 1..]);
    LiveGap(entries, i);
    WithoutMiddle(Live(entries[..i]), entries[i].value, Live(entries[i + 1..]));
  }

  /** Closing the gaps keeps the observers and their order. */
  lemma {:induction false} ClosedKeepsLive(entries: seq<Option<Observer>>)
    ensures Live(Closed(entries)) == Live(entries)
  {
    if entries != [] {
      var k := |entries| - 1;
      ClosedKeepsLive(entries[..k]);
      LivePush(Closed(entries[..k]), entries[k]);
      assert entries[k].None? ==> Closed(entries) == Closed(entries[..k]);
    }
  }

  lemma {:induction false} ClosedIsOrdered(entries: seq<Option<Observer>>, nextId: nat)
    requires Ordered(entries, nextId)
    ensures forall i :: 0 <= i < |Closed(entries)| ==> Closed(entries)[i].Some?
    ensures Ordered(Closed(entries), nextId)
  {
    if entries != [] {
      var k := |entries| - 1;
      ClosedIsOrdered(entries[..k], if entries[k].Some? then entries[k].value.id else nextId);
    }
  }

  lemma StableTransitive(a: seq<Option<Observer>>, aId: nat, b: seq<Option<Observer>>, bId: nat,
                         c: seq<Option<Observer>>)
    requires Stable(a, aId, b) && Stable(b, bId, c) && aId <= bId
    ensures Stable(a, aId, c)
  {
  }

  lemma StableAtFirst(entries: seq<Option<Observer>>, nextId: nat)
    ensures Stable(entries, nextId, entries)
  {
  }

  lemma StableGrows(before: seq<Option<Observer>>, nextId: nat, after: seq<Option<Observer>>)
    requires Stable(before, nextId, after)
    ensures |before| <= |after|
  {
  }

  /** Entry `i` of the array is the next of the snapshot, unless it was a tombstone already. */
  lemma {:induction false} NextOfSnapshot(start: seq<Option<Observer>>, nextId: nat, now: seq<Option<Observer>>, i: nat)
    requires Ordered(start, nextId) && Stable(start, nextId, now) && i < |start|
    ensures Live(start[i..]) == LiveOne(start[i]) + Live(start[i + 1..])
    ensures now[i] == start[i] || now[i].None?
    ensures start[i].Some? ==> (start[i].value in Live(now) <==> now[i].Some?)
  {
    hide Live;
    assert start[i..][1..] == start[i + 1..] && start[i..][..0] == [];
    LiveSplit(start[i..], 0);
    NothingLive();
    if start[i].Some? {
      LiveHas(now, start[i].value);
    }
  }

  lemma NothingLive()
    ensures Live([]) == []
  {
  }

  /** The notification goes on with what one turn leaves behind. */
  function AfterTurn(r: Registry, entry: Option<Observer>, rest: seq<Observer>, kind: nat, turns: Turns): Registry {
    if entry.Some? && kind in entry.value.kinds
    then Visit(AfterCall(r, entry.value, kind, turns), rest, kind, Later(turns))
    else Visit(r, rest, kind, turns)
  }

  lemma VisitNext(r: Registry, o: Observer, rest: seq<Observer>, kind: nat, turns: Turns)
    ensures Visit(r, [o] + rest, kind, turns)
         == AfterTurn(r, if o in r.observers then Some(o) else None, rest, kind, turns)
  {
    hide Perform;
    assert ([o] + rest)[1..] == rest;
  }

  /** One round of the loop over the array is one turn of the notification. */
  lemma VisitTurn(r: Registry, start: seq<Option<Observer>>, nextId: nat, now: seq<Option<Observer>>, i: nat,
                  kind: nat, turns: Turns)
    requires Ordered(start, nextId) && Stable(start, nextId, now) && i < |start|
    requires r.observers == Live(now)
    ensures Visit(r, Live(start[i..]), kind, turns) == AfterTurn(r, now[i], Live(start[i + 1..]), kind, turns)
  {
    NextOfSnapshot(start, nextId, now, i);
    hide Live, Ordered, Perform, Visit;
    if start[i].Some? {
      VisitNext(r, start[i].value, Live(start[i + 1..]), kind, turns);
    } else {
      assert Live(start[i..]) == Live(start[i + 1..]);
    }
  }

  lemma VisitEnd(r: Registry, start: seq<Option<Observer>>, i: nat, kind: nat, turns: Turns)
    requires i == |start|
    ensures Visit(r, Live(start[i..]), kind, turns) == r
  {
    assert start[i..] == [];
  }

  // ---------------------------------------------------------------------- class

  class Scope {
    var observers: seq<Option<Observer>>
    var isNotifying: nat
    var nextId: nat
    var log: seq<Event>

    ghost predicate Valid()
      reads this
    {
      && Ordered(observers, nextId)
      && (isNotifying == 0 ==> forall i :: 0 <= i < |observers| ==> observers[i].Some?)
    }

    ghost function Abs(): Registry
      reads this
    {
      Registry(Live(observers), nextId, isNotifying, log)
    }

    constructor ()
      ensures Valid() && Abs() == Registry([], 0, 0, [])
    {
      observers, isNotifying, nextId, log := [], 0, 0, [];
    }

    /** What every operation on a scope promises. */
    twostate predicate Follows(expected: Registry)
      reads this
    {
      && Valid()
      && Abs() == expected
      && (isNotifying > 0 ==> Stable(old(observers), old(nextId), observers))
      && old(nextId) <= nextId && isNotifying == old(isNotifying)
    }

    method AddObserver(kinds: set<nat>)
      requires Valid()
      modifies this
      ensures Follows(Apply(old(Abs()), Add(kinds)))
      ensures Abs().observers == old(Abs().observers) + [Observer(old(nextId), kinds)] && nextId == old(nextId) + 1
    {
      hide Live;
      LivePush(observers, Some(Observer(nextId, kinds)));
      observers := observers + [Some(Observer(nextId, kinds))];
      nextId := nextId + 1;
    }

    /** Moves the entries after `i` down by one. */
    method Shift(i: nat)
      requires i < |observers|
      modifies this`observers
      ensures observers == old(observers)[..i] + old(observers)[i + 1..]
    {
      var j := i + 1;
      while j < |observers|
        invariant i < j <= |observers| == old(|observers|)
        invariant forall k :: 0 <= k < i ==> observers[k] == old(observers)[k]
        invariant forall k :: i + 1 <= k < j ==> observers[k - 1] == old(observers)[k]
        invariant forall k :: j <= k < |observers| ==> observers[k] == old(observers)[k]
      {
        observers := observers[j - 1 := observers[j]];
        j := j + 1;
      }
      observers := observers[..|observers| - 1];
    }

    method RemoveObserver(id: nat)
      requires Valid()
      modifies this
      ensures Follows(Apply(old(Abs()), Remove(id)))
      ensures log == old(log) + (if Registered(old(Abs().observers), id) then [Removed(id)] else [])
    {
      hide Live, Without, Registered;
      var i := 0;
      while i < |observers|
        invariant 0 <= i <= |observers|
        invariant forall k :: 0 <= k < i ==> !(observers[k].Some? && observers[k].value.id == id)
        invariant unchanged(this)
      {
        if observers[i].Some? && observers[i].value.id == id {
          LiveWithout(observers, nextId, i);
          log := log + [Removed(id)];
          if isNotifying > 0 {
            observers := observers[i := None];
          } else {
            Shift(i);
          }
          return;
        }
        i := i + 1;
      }
      LiveRegistered(observers, id);
    }

    /** Closes the gaps in place. */
    method Compact()
      modifies this`observers
      ensures observers == Closed(old(observers))
    {
      var i, j := 0, 0;
      while i < |observers|
        invariant 0 <= j <= i <= |observers| == old(|observers|)
        invariant forall k :: i <= k < |observers| ==> observers[k] == old(observers)[k]
        invariant observers[..j] == Closed(old(observers)[..i])
      {
        assert old(observers)[..i + 1][..i] == old(observers)[..i];
        if observers[i].Some? {
          ghost var done := observers[..j];
          observers := observers[j := observers[i]];
          j := j + 1;
          assert observers[..j] == done + [old(observers)[i]];
        }
        i := i + 1;
      }
      assert old(observers)[..i] == old(observers);
      observers := observers[..j];
    }

    /** The end of a notification. */
    method EndNotify()
      requires Ordered(observers, nextId) && isNotifying > 0
      modifies this
      ensures Valid()
      ensures Abs() == old(Abs()).(depth := old(isNotifying) - 1)
      ensures isNotifying > 0 ==> observers == old(observers)
    {
      isNotifying := isNotifying - 1;
      if isNotifying == 0 {
        ClosedKeepsLive(observers);
        ClosedIsOrdered(observers, nextId);
        hide Live, Closed, Ordered;
        Compact();
      }
    }

    /** The turn of entry `i`. */
    method TakeTurn(i: nat, kind: nat, todo: Turns, ghost rest: seq<Observer>) returns (next: Turns)
      requires Valid() && isNotifying > 0 && i < |observers|
      modifies this
      ensures Valid() && Stable(old(observers), old(nextId), observers)
      ensures old(nextId) <= nextId && isNotifying == old(isNotifying)
      ensures Visit(Abs(), rest, kind, next) == AfterTurn(old(Abs()), old(observers)[i], rest, kind, todo)
      ensures next == todo || next < todo
      decreases todo, 0
    {
      hide Live, Perform, Visit;
      next := todo;
      if observers[i].Some? && kind in observers[i].value.kinds {
        log := log + [Called(observers[i].value.id, kind, isNotifying)];
        if todo.Turn? {
          Run(todo.script);
          next := todo.next;
        }
      }
    }

    /** The loop over the array. */
    method VisitAll(kind: nat, turns: Turns)
      requires Valid() && isNotifying > 0
      modifies this
      ensures Follows(Visit(old(Abs()), old(Abs()).observers, kind, turns))
      decreases turns, 1
    {
      hide Live, Visit, Ordered, Stable, AfterTurn;
      ghost var start, startId, begin := observers, nextId, Abs();
      StableAtFirst(start, startId);
      assert start[0..] == start;
      var end := |observers|;
      var i, todo := 0, turns;
      while i < end && i < |observers|
        invariant 0 <= i <= end == |start| <= |observers|
        invariant todo == turns || todo < turns
        invariant isNotifying == begin.depth && startId <= nextId
        invariant Ordered(observers, nextId) && Stable(start, startId, observers)
        invariant Visit(begin, begin.observers, kind, turns) == Visit(Abs(), Live(start[i..]), kind, todo)
      {
        ghost var before, beforeId := observers, nextId;
        VisitTurn(Abs(), start, startId, observers, i, kind, todo);
        todo := TakeTurn(i, kind, todo, Live(start[i + 1..]));
        StableTransitive(start, startId, before, beforeId, observers);
        StableGrows(start, startId, observers);
        i := i + 1;
      }
      VisitEnd(Abs(), start, i, kind, todo);
    }

    method NotifyObservers(kind: nat, turns: Turns)
      requires Valid()
      modifies this
      ensures Follows(Apply(old(Abs()), Notify(kind, turns)))
      decreases turns, 2
    {
      hide Live, Visit;
      isNotifying := isNotifying + 1;
      VisitAll(kind, turns);
      EndNotify();
    }

    method Run(script: Script)
      requires Valid()
      modifies this
      ensures Follows(Perform(old(Abs()), script))
      decreases script, 0
    {
      match script
      case Done =>
      case Then(action, rest) =>
        match action {
          case Add(kinds) => AddObserver(kinds);
          case Remove(id) => RemoveObserver(id);
          case Notify(kind, turns) => NotifyObservers(kind, turns);
        }
        ghost var middle, middleId := observers, nextId;
        Run(rest);
        if isNotifying > 0 {
          StableTransitive(old(observers), old(nextId), middle, middleId, observers);
        }
    }
  }
}
