/**
 What a notification of observers promises, read off the log of what happened: each observer
 that was registered at its start is called once and in the order of registration, unless it
 was removed before its turn; observers added later are not called.
 */
module ScopeObserversOnce {
  import opened ScopeObservers

  predicate WellFormed(r: Registry) {
    Increasing(r.observers) && forall i :: 0 <= i < |r.observers| ==> r.observers[i].id < r.nextId
  }

  predicate Increasing(observers: seq<Observer>) {
    forall i, j :: 0 <= i < j < |observers| ==> observers[i].id < observers[j].id
  }

  /** The observers called by the notification at level `depth`, in the order of the calls. */
  function CalledBy(log: seq<Event>, depth: nat): seq<nat> {
    if log == [] then []
    else (if log[0].Called? && log[0].depth == depth then [log[0].id] else []) + CalledBy(log[1..], depth)
  }

  /** A removal of `id` comes before the notification at level `depth` reaches `id` or an
      observer registered after it. */
  predicate RemovedBeforeTurn(log: seq<Event>, id: nat, depth: nat) {
    && log != []
    && (|| log[0] == Removed(id)
        || (!(log[0].Called? && log[0].depth == depth && log[0].id >= id) && RemovedBeforeTurn(log[1..], id, depth)))
  }

  // --------------------------------------------------------------------- frames

  /** How `r` may have changed into `r'`: the log grew by `news`, in which only notifications
      at level `depth` or deeper call, and an observer is gone exactly if its removal is logged. */
  predicate Evolves(r: Registry, r': Registry, news: seq<Event>, depth: nat) {
    && WellFormed(r')
    && r'.log == r.log + news && r'.depth == r.depth && r.nextId <= r'.nextId
    && (forall e :: e in news && e.Called? ==> depth <= e.depth)
    && (forall o :: o in r'.observers ==> o in r.observers || r.nextId <= o.id)
    && (forall o :: o in r.observers ==> (o in r'.observers <==> Removed(o.id) !in news))
  }

  lemma EvolvesLog(r: Registry, r': Registry, news: seq<Event>, depth: nat)
    requires Evolves(r, r', news, depth)
    ensures WellFormed(r') && r'.log == r.log + news && r'.depth == r.depth && r.nextId <= r'.nextId
  {
  }

  function Fresh(r: Registry, r': Registry): seq<Event> {
    if |r.log| <= |r'.log| then r'.log[|r.log|..] else []
  }

  lemma EvolvesTransitive(a: Registry, b: Registry, c: Registry, ab: seq<Event>, bc: seq<Event>, depth: nat)
    requires WellFormed(a) && Evolves(a, b, ab, depth) && Evolves(b, c, bc, depth)
    ensures Evolves(a, c, ab + bc, depth)
  {
    assert a.log + ab + bc == a.log + (ab + bc);
  }

  lemma {:induction false} WithoutHas(observers: seq<Observer>, id: nat, o: Observer)
    requires Increasing(observers)
    ensures o in Without(observers, id) <==> o in observers && o.id != id
  {
    if observers != [] {
      WithoutHas(observers[1..], id, o);
      assert observers == [observers[0]] + observers[1..];
    }
  }

  lemma {:induction false} WithoutIncreasing(observers: seq<Observer>, id: nat)
    requires Increasing(observers)
    ensures Increasing(Without(observers, id))
  {
    if observers != [] {
      var w := Without(observers[1..], id);
      WithoutIncreasing(observers[1..], id);
      forall i | 0 <= i < |w| ensures observers[0].id < w[i].id {
        WithoutHas(observers[1..], id, w[i]);
      }
    }
  }

  lemma AddEvolves(r: Registry, kinds: set<nat>, depth: nat)
    requires WellFormed(r)
    ensures Evolves(r, Apply(r, Add(kinds)), [], depth)
  {
  }

  lemma RemoveEvolves(r: Registry, id: nat, depth: nat)
    requires WellFormed(r)
    ensures Evolves(r, Apply(r, Remove(id)), Fresh(r, Apply(r, Remove(id))), depth)
  {
    forall o ensures o in Without(r.observers, id) <==> o in r.observers && o.id != id {
      WithoutHas(r.observers, id, o);
    }
    WithoutIncreasing(r.observers, id);
    hide Without;
  }

  lemma {:induction false} ApplyEvolves(r: Registry, action: Action)
    requires WellFormed(r)
    ensures Evolves(r, Apply(r, action), Fresh(r, Apply(r, action)), r.depth + 1)
    decreases action
  {
    match action
    case Add(kinds) => AddEvolves(r, kinds, r.depth + 1);
    case Remove(id) => RemoveEvolves(r, id, r.depth + 1);
    case Notify(kind, turns) => VisitEvolves(r.(depth := r.depth + 1), r.observers, kind, turns);
  }

  lemma {:induction false} PerformEvolves(r: Registry, script: Script)
    requires WellFormed(r)
    ensures Evolves(r, Perform(r, script), Fresh(r, Perform(r, script)), r.depth + 1)
    decreases script
  {
    if script.Then? {
      var m := Apply(r, script.action);
      ApplyEvolves(r, script.action);
      PerformEvolves(m, script.rest);
      EvolvesTransitive(r, m, Perform(r, script), Fresh(r, m), Fresh(m, Perform(r, script)), r.depth + 1);
    }
  }

  lemma {:induction false} CallEvolves(r: Registry, o: Observer, kind: nat, turns: Turns)
    requires WellFormed(r)
    ensures Evolves(r, AfterCall(r, o, kind, turns), Fresh(r, AfterCall(r, o, kind, turns)), r.depth)
    ensures exists deeper :: Fresh(r, AfterCall(r, o, kind, turns)) == [Called(o.id, kind, r.depth)] + deeper
              && forall e :: e in deeper && e.Called? ==> r.depth < e.depth
    decreases turns, 0
  {
    var called := r.(log := r.log + [Called(o.id, kind, r.depth)]);
    var after := AfterCall(r, o, kind, turns);
    if turns.Turn? {
      PerformEvolves(called, turns.script);
    }
    var deeper := Fresh(called, after);
    assert Evolves(called, after, deeper, r.depth + 1);
    assert after.log == r.log + ([Called(o.id, kind, r.depth)] + deeper);
  }

  lemma {:induction false} VisitEvolves(r: Registry, snapshot: seq<Observer>, kind: nat, turns: Turns)
    requires WellFormed(r)
    ensures Evolves(r, Visit(r, snapshot, kind, turns), Fresh(r, Visit(r, snapshot, kind, turns)), r.depth)
    decreases turns, |snapshot|, 1
  {
    if snapshot != [] {
      var o := snapshot[0];
      if o in r.observers && kind in o.kinds {
        var m := AfterCall(r, o, kind, turns);
        CallEvolves(r, o, kind, turns);
        VisitEvolves(m, snapshot[1..], kind, Later(turns));
        EvolvesTransitive(r, m, Visit(r, snapshot, kind, turns), Fresh(r, m),
                          Fresh(m, Visit(r, snapshot, kind, turns)), r.depth);
      } else {
        VisitEvolves(r, snapshot[1..], kind, turns);
      }
    }
  }

  // --------------------------------------------------------------------- logs

  lemma {:induction false} CalledByAppend(a: seq<Event>, b: seq<Event>, depth: nat)
    ensures CalledBy(a + b, depth) == CalledBy(a, depth) + CalledBy(b, depth)
  {
    if a == [] {
      assert a + b == b;
    } else {
      assert (a + b)[1..] == a[1..] + b;
      CalledByAppend(a[1..], b, depth);
    }
  }

  lemma {:induction false} DeeperCallsNobody(log: seq<Event>, depth: nat)
    requires forall e :: e in log && e.Called? ==> depth < e.depth
    ensures CalledBy(log, depth) == []
  {
    if log != [] {
      DeeperCallsNobody(log[1..], depth);
    }
  }

  /** A part of the log that calls no observer from `id` on decides about a removal before the
      turn of `id` if it has one, and otherwise leaves it to what follows. */
  lemma {:induction false} RemovedAppend(a: seq<Event>, b: seq<Event>, id: nat, depth: nat)
    requires forall x :: x in CalledBy(a, depth) ==> x < id
    ensures RemovedBeforeTurn(a + b, id, depth) <==> Removed(id) in a || RemovedBeforeTurn(b, id, depth)
  {
    if a == [] {
      assert a + b == b;
    } else {
      assert (a + b)[1..] == a[1..] + b;
      assert a == [a[0]] + a[1..];
      var first := if a[0].Called? && a[0].depth == depth then [a[0].id] else [];
      assert CalledBy(a, depth) == first + CalledBy(a[1..], depth);
      assert forall x :: x in first || x in CalledBy(a[1..], depth) ==> x in CalledBy(a, depth);
      assert a[0].Called? && a[0].depth == depth ==> a[0].id in first;
      RemovedAppend(a[1..], b, id, depth);
    }
  }

  predicate IncreasingIds(ids: seq<nat>) {
    forall i, j :: 0 <= i < j < |ids| ==> ids[i] < ids[j]
  }

  lemma PrependIncreasing(id: nat, ids: seq<nat>)
    requires IncreasingIds(ids) && forall x :: x in ids ==> id < x
    ensures IncreasingIds([id] + ids)
  {
    assert forall i :: 0 <= i < |ids| ==> ids[i] in ids;
  }

  /** What the call of one observer adds to the log calls that observer and nobody else. */
  lemma CallLogsOne(r: Registry, o: Observer, kind: nat, turns: Turns)
    requires WellFormed(r)
    ensures CalledBy(Fresh(r, AfterCall(r, o, kind, turns)), r.depth) == [o.id]
  {
    CallEvolves(r, o, kind, turns);
    var call := [Called(o.id, kind, r.depth)];
    var deeper: seq<Event> :| Fresh(r, AfterCall(r, o, kind, turns)) == call + deeper
      && forall e :: e in deeper && e.Called? ==> r.depth < e.depth;
    DeeperCallsNobody(deeper, r.depth);
    CalledByAppend(call, deeper, r.depth);
    assert call[1..] == [];
  }

  // ------------------------------------------------------------------- theorems

  lemma FreshAppend(a: Registry, b: Registry, c: Registry)
    requires a.log <= b.log <= c.log
    ensures Fresh(a, c) == Fresh(a, b) + Fresh(b, c)
  {
  }

  lemma VisitSplits(r: Registry, snapshot: seq<Observer>, kind: nat, turns: Turns)
    requires WellFormed(r) && snapshot != [] && snapshot[0] in r.observers && kind in snapshot[0].kinds
    ensures var m := AfterCall(r, snapshot[0], kind, turns);
            var end := Visit(m, snapshot[1..], kind, Later(turns));
            && WellFormed(m) && m.depth == r.depth && r.nextId <= m.nextId
            && end == Visit(r, snapshot, kind, turns)
            && Fresh(r, end) == Fresh(r, m) + Fresh(m, end)
            && CalledBy(Fresh(r, end), r.depth) == [snapshot[0].id] + CalledBy(Fresh(m, end), r.depth)
  {
    var m := AfterCall(r, snapshot[0], kind, turns);
    var end := Visit(m, snapshot[1..], kind, Later(turns));
    assert end == Visit(r, snapshot, kind, turns);
    hide *;
    CallEvolves(r, snapshot[0], kind, turns);
    EvolvesLog(r, m, Fresh(r, m), r.depth);
    CallLogsOne(r, snapshot[0], kind, turns);
    VisitEvolves(m, snapshot[1..], kind, Later(turns));
    EvolvesLog(m, end, Fresh(m, end), r.depth);
    FreshAppend(r, m, end);
    CalledByAppend(Fresh(r, m), Fresh(m, end), r.depth);
  }

  predicate Listens(observers: seq<Observer>, kind: nat, id: nat) {
    exists o :: o in observers && o.id == id && kind in o.kinds
  }

  /** A notification calls observers of the snapshot only, in its order and none twice. */
  lemma {:induction false} VisitInOrder(r: Registry, snapshot: seq<Observer>, kind: nat, turns: Turns)
    requires WellFormed(r) && Increasing(snapshot)
    ensures var ids := CalledBy(Fresh(r, Visit(r, snapshot, kind, turns)), r.depth);
            IncreasingIds(ids) && forall id :: id in ids ==> Listens(snapshot, kind, id)
    decreases turns, |snapshot|
  {
    if snapshot != [] {
      var o, rest := snapshot[0], snapshot[1..];
      assert snapshot == [o] + rest;
      if o in r.observers && kind in o.kinds {
        var m := AfterCall(r, o, kind, turns);
        VisitSplits(r, snapshot, kind, turns);
        VisitInOrder(m, rest, kind, Later(turns));
        hide Visit, AfterCall, CalledBy, WellFormed;
        var ids := CalledBy(Fresh(m, Visit(m, rest, kind, Later(turns))), r.depth);
        forall id | id in ids
          ensures o.id < id && Listens(snapshot, kind, id)
        {
          assert Listens(rest, kind, id);
        }
        assert Listens(snapshot, kind, o.id);
        PrependIncreasing(o.id, ids);
      } else {
        VisitInOrder(r, rest, kind, turns);
        assert forall id :: Listens(rest, kind, id) ==> Listens(snapshot, kind, id);
      }
    }
  }

  /** An observer of the snapshot is called exactly if it is registered and not removed before
      its turn. */
  lemma {:induction false} VisitCallsUnlessRemoved(r: Registry, snapshot: seq<Observer>, kind: nat, turns: Turns,
                                                   o: Observer)
    requires WellFormed(r) && Increasing(snapshot) && o in snapshot && kind in o.kinds && o.id < r.nextId
    ensures var news := Fresh(r, Visit(r, snapshot, kind, turns));
            o.id in CalledBy(news, r.depth) <==> o in r.observers && !RemovedBeforeTurn(news, o.id, r.depth)
    decreases turns, |snapshot|
  {
    hide AfterCall, CalledBy, RemovedBeforeTurn, Fresh, Perform;
    var h, rest := snapshot[0], snapshot[1..];
    var end := Visit(r, snapshot, kind, turns);
    assert snapshot == [h] + rest;
    if h in r.observers && kind in h.kinds {
      var m := AfterCall(r, h, kind, turns);
      VisitSplits(r, snapshot, kind, turns);
      if h == o {
        CalledFirst(r, o, kind, turns, Fresh(m, end));
      } else {
        VisitCallsUnlessRemoved(m, rest, kind, Later(turns), o);
        CallLogsOne(r, h, kind, turns);
        CallEvolves(r, h, kind, turns);
        RemovedAppend(Fresh(r, m), Fresh(m, end), o.id, r.depth);
      }
    } else if h == o {
      VisitInOrder(r, rest, kind, turns);
    } else {
      VisitCallsUnlessRemoved(r, rest, kind, turns, o);
    }
  }

  lemma CalledFirst(r: Registry, o: Observer, kind: nat, turns: Turns, rest: seq<Event>)
    requires WellFormed(r)
    ensures !RemovedBeforeTurn(Fresh(r, AfterCall(r, o, kind, turns)) + rest, o.id, r.depth)
  {
    CallEvolves(r, o, kind, turns);
  }

  /** Every notification, at any nesting level: it calls observers that were registered when it
      started and listen to it, in the order of their registration, none twice and none added
      later; and each of them is called exactly if it was not removed before its turn, whatever
      the callbacks do. */
  lemma {:induction false} NotifiedOnceInOrder(r: Registry, kind: nat, turns: Turns, o: Observer)
    requires WellFormed(r)
    ensures var news := Fresh(r, Apply(r, Notify(kind, turns)));
            var ids := CalledBy(news, r.depth + 1);
            && IncreasingIds(ids)
            && (forall id :: id in ids ==> Listens(r.observers, kind, id))
            && (o in r.observers && kind in o.kinds ==>
                  (o.id in ids <==> !RemovedBeforeTurn(news, o.id, r.depth + 1)))
  {
    var begun := r.(depth := r.depth + 1);
    assert Fresh(r, Apply(r, Notify(kind, turns))) == Fresh(begun, Visit(begun, r.observers, kind, turns));
    hide Visit, CalledBy, RemovedBeforeTurn, Listens, IncreasingIds;
    VisitInOrder(begun, r.observers, kind, turns);
    if o in r.observers && kind in o.kinds {
      VisitCallsUnlessRemoved(begun, r.observers, kind, turns, o);
    }
  }

  /** The registry a caller starts from is well-formed, and so it stays whatever is done. */
  lemma AlwaysWellFormed(script: Script)
    ensures WellFormed(Perform(Registry([], 0, 0, []), script))
  {
    PerformEvolves(Registry([], 0, 0, []), script);
  }
}
