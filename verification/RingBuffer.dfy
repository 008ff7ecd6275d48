/**
 The breadcrumb ring (src/sentry_ringbuffer.c): a list that is overwritten from its oldest entry
 once it is full.
 */
module RingBuffer {
  /** The ring as a value. */
  datatype Ring<T> = Ring(list: seq<T>, maxSize: nat, start: nat)

  /** The index behind `i` steps from `start` in a ring of `size` places. */
  function Around(start: nat, i: nat, size: nat): (r: nat)
    requires start < size && i <= size
    ensures r == if start + i < size then start + i else start + i - size
  {
    RemainderOf(start + i, size);
    (start + i) % size
  }

  lemma RemainderOf(a: nat, size: nat)
    requires a < 2 * size
    ensures a % size == if a < size then a else a - size
  {
    if a >= size {
      assert a == size * 1 + (a - size);
    }
  }

  function Append<T>(r: Ring<T>, value: T): Ring<T>
    requires WellFormed(r)
  {
    if r.maxSize == 0 then r
    else if |r.list| < r.maxSize then r.(list := r.list + [value])
    else Ring(r.list[r.start := value], r.maxSize, Around(r.start, 1, r.maxSize))
  }

  function SetMaxSize<T>(r: Ring<T>, maxSize: nat): Ring<T> {
    if |r.list| > 0 then r else r.(maxSize := maxSize)
  }

  predicate WellFormed<T>(r: Ring<T>) {
    |r.list| <= r.maxSize && (if |r.list| < r.maxSize || r.maxSize == 0 then r.start == 0 else r.start < r.maxSize)
  }

  /** The values of the ring, oldest first. */
  function ToList<T>(r: Ring<T>): seq<T>
    requires WellFormed(r)
  {
    r.list[r.start..] + r.list[..r.start]
  }

  class RingBuffer<T> {
    var list: seq<T>
    var maxSize: nat
    var startIdx: nat

    function Now(): Ring<T>
      reads this
    {
      Ring(list, maxSize, startIdx)
    }

    constructor (maxSize: nat)
      ensures Now() == Ring([], maxSize, 0) && WellFormed(Now())
    {
      list, startIdx, this.maxSize := [], 0, maxSize;
    }

    method AppendValue(value: T) returns (ok: bool)
      requires WellFormed(Now())
      modifies this
      // the ring as a value, which `ListIsLastAppended` is about
      ensures WellFormed(Now()) && Now() == Append(old(Now()), value)
      ensures ok <==> maxSize > 0
      ensures ToList(Now()) == LastOf(old(ToList(Now())) + [value], maxSize) && maxSize == old(maxSize)
    {
      AppendShifts(Now(), value);
      if maxSize == 0 {
        return false;
      }
      if |list| < maxSize {
        list := list + [value];
      } else {
        list := list[startIdx := value];
        startIdx := Around(startIdx, 1, maxSize);
      }
      return true;
    }

    /** The list form, built by a loop over the ring. */
    method Values() returns (result: seq<T>)
      requires WellFormed(Now())
      ensures result == ToList(Now())
    {
      hide Around;
      result := [];
      for i := 0 to |list|
        invariant result == ToList(Now())[..i]
      {
        var idx := Around(startIdx, i, |list|);
        assert ToList(Now())[i] == list[idx];
        result := result + [list[idx]];
      }
      assert ToList(Now())[..|list|] == ToList(Now());
    }

    method ChangeMaxSize(size: nat)
      requires WellFormed(Now())
      modifies this
      // the ring as a value, which `CapacityIsFixedOnceUsed` is about
      ensures WellFormed(Now()) && Now() == SetMaxSize(old(Now()), size)
      ensures maxSize == if old(ToList(Now())) == [] then size else old(maxSize)
      ensures ToList(Now()) == old(ToList(Now()))
    {
      CapacityIsFixedOnceUsed(Now(), size);
      if |list| > 0 {
        return;
      }
      maxSize := size;
    }
  }

  // ---------------------------------------------------------------------------- theorems

  function AppendAll<T>(r: Ring<T>, values: seq<T>): (s: Ring<T>)
    requires WellFormed(r)
    ensures WellFormed(s) && s.maxSize == r.maxSize
  {
    if values == [] then r else Append(AppendAll(r, values[..|values| - 1]), values[|values| - 1])
  }

  /** The last `k` values, or all if there are fewer. */
  function LastOf<T>(values: seq<T>, k: nat): seq<T> {
    if |values| <= k then values else values[|values| - k..]
  }

  /** One more value: the oldest goes if the ring is full. */
  lemma {:induction false} AppendShifts<T>(r: Ring<T>, value: T)
    requires WellFormed(r)
    ensures WellFormed(Append(r, value))
    ensures ToList(Append(r, value)) == LastOf(ToList(r) + [value], r.maxSize)
  {
    hide Around;
    var s := Append(r, value);
    if r.maxSize > 0 && |r.list| == r.maxSize {
      assert ToList(s) == r.list[r.start + 1..] + r.list[..r.start] + [value];
    }
  }

  lemma LastOfShifts<T>(front: seq<T>, last: T, k: nat)
    ensures LastOf(LastOf(front, k) + [last], k) == LastOf(front + [last], k)
  {
  }

  /** After any history of appends the list form of the ring is the last values of the history, as
      many as the ring has room for, oldest first. */
  lemma {:induction false} ListIsLastAppended<T>(maxSize: nat, values: seq<T>)
    ensures ToList(AppendAll(Ring([], maxSize, 0), values)) == LastOf(values, maxSize)
  {
    if values != [] {
      var front, last := values[..|values| - 1], values[|values| - 1];
      ListIsLastAppended(maxSize, front);
      var r := AppendAll(Ring([], maxSize, 0), front);
      hide Append, ToList;
      AppendShifts(r, last);
      LastOfShifts(front, last, maxSize);
      assert front + [last] == values;
    }
  }

  /** The capacity changes only while the ring is empty: once a value was kept, it stays what it
      was, whatever is set and appended later. */
  lemma CapacityIsFixedOnceUsed<T>(r: Ring<T>, size: nat)
    requires WellFormed(r)
    ensures SetMaxSize(r, size).maxSize == (if ToList(r) == [] then size else r.maxSize)
    ensures ToList(r) != [] ==> SetMaxSize(r, size) == r
    ensures WellFormed(SetMaxSize(r, size)) && ToList(SetMaxSize(r, size)) == ToList(r)
  {
    assert |ToList(r)| == |r.list|;
  }
}
