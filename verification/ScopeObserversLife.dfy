/**
 The life of an observer, over everything that callers and callbacks may do: from its registration
 on it is called by every notification it listens to, until its removal, and never again after it.
 */
module ScopeObserversLife {
  import opened ScopeObservers
  import opened ScopeObserversOnce

  // ------------------------------------------------------------------------ registration

  /** Adding an observer registers it under a new number behind all others, and from then on, whatever
      is done in between, a notification calls it exactly if it listens to it and was removed neither
      before the notification began nor before its turn. */
  lemma {:induction false} AddedIsCalled(r: Registry, kinds: set<nat>, between: Script, kind: nat, turns: Turns)
    requires WellFormed(r)
    ensures var added := Apply(r, Add(kinds));
            var begin := Perform(added, between);
            var news := Fresh(begin, Apply(begin, Notify(kind, turns)));
            && added.observers == r.observers + [Observer(r.nextId, kinds)] && added.log == r.log
            && (r.nextId in CalledBy(news, begin.depth + 1) <==>
                  && kind in kinds && Removed(r.nextId) !in Fresh(added, begin)
                  && !RemovedBeforeTurn(news, r.nextId, begin.depth + 1))
  {
    var added := Apply(r, Add(kinds));
    AddEvolves(r, kinds, r.depth);
    var o := Observer(r.nextId, kinds);
    assert o in added.observers;
    PerformEvolves(added, between);
    var begin := Perform(added, between);
    hide Perform, CalledBy, RemovedBeforeTurn;
    NotifiedOnceInOrder(begin, kind, turns, o);
    var ids := CalledBy(Fresh(begin, Apply(begin, Notify(kind, turns))), begin.depth + 1);
    if o.id in ids {
      assert Listens(begin.observers, kind, o.id);
      var p :| p in begin.observers && p.id == o.id && kind in p.kinds;
      assert p in added.observers;
      assert p == o;
    }
  }

  /** The calls of a notification are for what it notifies of. */
  lemma {:induction false} VisitIsOfItsKind(r: Registry, snapshot: seq<Observer>, kind: nat, turns: Turns, e: Event)
    requires WellFormed(r) && e in Fresh(r, Visit(r, snapshot, kind, turns)) && e.Called? && e.depth == r.depth
    ensures e.kind == kind
    decreases turns, |snapshot|
  {
    hide AfterCall, Perform;
    if snapshot != [] {
      var o := snapshot[0];
      if o in r.observers && kind in o.kinds {
        var m := AfterCall(r, o, kind, turns);
        VisitSplits(r, snapshot, kind, turns);
        CallEvolves(r, o, kind, turns);
        var end := Visit(m, snapshot[1..], kind, Later(turns));
        if e in Fresh(m, end) {
          VisitIsOfItsKind(m, snapshot[1..], kind, Later(turns), e);
        }
      } else {
        VisitIsOfItsKind(r, snapshot[1..], kind, turns, e);
      }
    }
  }

  lemma {:induction false} NotifiedOfItsKind(r: Registry, kind: nat, turns: Turns, e: Event)
    requires WellFormed(r) && e in Fresh(r, Apply(r, Notify(kind, turns))) && e.Called? && e.depth == r.depth + 1
    ensures e.kind == kind
  {
    var begun := r.(depth := r.depth + 1);
    assert Fresh(r, Apply(r, Notify(kind, turns))) == Fresh(begun, Visit(begun, r.observers, kind, turns));
    hide Visit, Fresh;
    VisitIsOfItsKind(begun, r.observers, kind, turns, e);
  }

  // ----------------------------------------------------------------------------- removal

  /** Nothing is logged of an observer after its removal. */
  predicate SilentAfterRemoval(log: seq<Event>) {
    forall p, q :: 0 <= p < q < |log| && log[p].Removed? ==> log[q].id != log[p].id
  }

  /** What is registered was never removed, and only what has a number was. */
  predicate Buried(r: Registry) {
    && SilentAfterRemoval(r.log)
    && (forall e :: e in r.log ==> e.id < r.nextId)
    && (forall o :: o in r.observers ==> Removed(o.id) !in r.log)
  }

  ghost predicate Sound(r: Registry) {
    WellFormed(r) && Buried(r)
  }

  lemma LogOfRegistered(r: Registry, e: Event)
    requires Sound(r) && Registered(r.observers, e.id)
    ensures SilentAfterRemoval(r.log + [e]) && forall x :: x in r.log + [e] ==> x.id < r.nextId
  {
    var i :| 0 <= i < |r.observers| && r.observers[i].id == e.id;
    assert r.observers[i] in r.observers;
    forall p | 0 <= p < |r.log| && r.log[p].Removed? ensures r.log[p].id != e.id {
      assert r.log[p] in r.log && r.log[p] == Removed(r.log[p].id);
    }
  }

  /** Removing an observer unregisters it and logs that, and leaves the others. */
  lemma RemoveBuries(r: Registry, id: nat)
    requires Sound(r)
    ensures Sound(Apply(r, Remove(id)))
    ensures var r' := Apply(r, Remove(id));
            && (forall o :: o in r'.observers <==> o in r.observers && o.id != id)
            && (Registered(r.observers, id) <==> r'.log == r.log + [Removed(id)])
            && (Registered(r.observers, id) || r' == r)
  {
    RemoveEvolves(r, id, r.depth);
    forall o ensures o in Without(r.observers, id) <==> o in r.observers && o.id != id {
      WithoutHas(r.observers, id, o);
    }
    if Registered(r.observers, id) {
      LogOfRegistered(r, Removed(id));
    }
    hide Without;
    assert |r.log + [Removed(id)]| != |r.log|;
  }

  lemma {:induction false} ApplyBuries(r: Registry, action: Action)
    requires Sound(r)
    ensures Sound(Apply(r, action))
    decreases action
  {
    match action
    case Add(kinds) => AddBuries(r, kinds);
    case Remove(id) => RemoveBuries(r, id);
    case Notify(kind, turns) => VisitBuries(r.(depth := r.depth + 1), r.observers, kind, turns);
  }

  lemma AddBuries(r: Registry, kinds: set<nat>)
    requires Sound(r)
    ensures Sound(Apply(r, Add(kinds)))
  {
    assert forall e :: e in r.log ==> e.id != r.nextId;
  }

  lemma {:induction false} PerformBuries(r: Registry, script: Script)
    requires Sound(r)
    ensures Sound(Perform(r, script))
    decreases script
  {
    hide Sound, Apply;
    if script.Then? {
      ApplyBuries(r, script.action);
      PerformBuries(Apply(r, script.action), script.rest);
    }
  }

  lemma CallIsLogged(r: Registry, o: Observer, kind: nat)
    requires Sound(r) && o in r.observers
    ensures Sound(r.(log := r.log + [Called(o.id, kind, r.depth)]))
  {
    assert Registered(r.observers, o.id);
    LogOfRegistered(r, Called(o.id, kind, r.depth));
  }

  lemma {:induction false} VisitBuries(r: Registry, snapshot: seq<Observer>, kind: nat, turns: Turns)
    requires Sound(r)
    ensures Sound(Visit(r, snapshot, kind, turns))
    decreases turns, |snapshot|
  {
    hide Sound, Perform;
    if snapshot != [] {
      var o := snapshot[0];
      if o in r.observers && kind in o.kinds {
        CallIsLogged(r, o, kind);
        if turns.Turn? {
          PerformBuries(r.(log := r.log + [Called(o.id, kind, r.depth)]), turns.script);
        }
        VisitBuries(AfterCall(r, o, kind, turns), snapshot[1..], kind, Later(turns));
      } else {
        VisitBuries(r, snapshot[1..], kind, turns);
      }
    }
  }

  /** Whatever callers and callbacks do, at any nesting level: once an observer was removed, no
      notification calls it any more, not even one that was under way, and it is not removed twice. */
  lemma {:induction false} RemovedIsNeverCalled(script: Script, p: nat, q: nat)
    requires p < q < |Perform(Registry([], 0, 0, []), script).log|
    ensures var log := Perform(Registry([], 0, 0, []), script).log;
            log[p].Removed? ==> log[q].id != log[p].id
  {
    PerformBuries(Registry([], 0, 0, []), script);
  }

  /** At any moment of any script, removing an observer that is registered unregisters it and logs
      its removal, and leaves all others registered. */
  lemma {:induction false} RemovalIsLogged(script: Script, id: nat)
    ensures var r := Perform(Registry([], 0, 0, []), script);
            var r' := Apply(r, Remove(id));
            && (forall o :: o in r'.observers <==> o in r.observers && o.id != id)
            && (Registered(r.observers, id) <==> r'.log == r.log + [Removed(id)])
  {
    PerformBuries(Registry([], 0, 0, []), script);
    RemoveBuries(Perform(Registry([], 0, 0, []), script), id);
  }
}
