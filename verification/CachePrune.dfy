/**
 Pruning of the cache directory (src/sentry_database.c).

 Entries are visited from the newest to the oldest; an entry goes if it is too old, or if the
 sizes up to it exceed the size limit, or if its position exceeds the item limit.  A limit of
 zero is none.  Sizes are added in an unsigned 64-bit counter.
 */
module CachePrune {
  const WRAP: nat := 0x1_0000_0000_0000_0000

  datatype Entry = Entry(path: string, mtime: int, size: nat)

  datatype Limits = Limits(now: int, maxAge: int, maxSize: nat, maxItems: nat)

  predicate NewestFirst(entries: seq<Entry>) {
    forall i, j :: 0 <= i < j < |entries| ==> entries[i].mtime >= entries[j].mtime
  }

  /** The same entries, newest first; those of one time are in any order. */
  predicate Arranges(entries: seq<Entry>, listing: seq<Entry>) {
    multiset(entries) == multiset(listing) && NewestFirst(entries)
  }

  /** `entry` put before the first one that is not newer. */
  function Insert(entry: Entry, entries: seq<Entry>): (r: seq<Entry>)
    ensures multiset(r) == multiset(entries) + multiset{entry}
  {
    if entries == [] || entry.mtime >= entries[0].mtime then [entry] + entries
    else
      assert entries == [entries[0]] + entries[1..];
      [entries[0]] + Insert(entry, entries[1..])
  }

  lemma {:induction false} InsertSorts(entry: Entry, entries: seq<Entry>)
    requires NewestFirst(entries)
    ensures NewestFirst(Insert(entry, entries))
  {
    if entries != [] && entry.mtime < entries[0].mtime {
      InsertSorts(entry, entries[1..]);
      var rest := Insert(entry, entries[1..]);
      forall i | 0 <= i < |rest|
        ensures rest[i].mtime <= entries[0].mtime
      {
        assert rest[i] in multiset(rest);
        assert rest[i] == entry || rest[i] in entries[1..];
      }
    }
  }

  /** The listing from the newest entry to the oldest. */
  function Sort(listing: seq<Entry>): (r: seq<Entry>)
    ensures Arranges(r, listing)
  {
    if listing == [] then []
    else
      assert listing == [listing[0]] + listing[1..];
      InsertSorts(listing[0], Sort(listing[1..]));
      Insert(listing[0], Sort(listing[1..]))
  }

  predicate TooOld(e: Entry, l: Limits) {
    l.maxAge > 0 && e.mtime < l.now - l.maxAge
  }

  /** The total size of the first `n` entries. */
  function Sum(entries: seq<Entry>, n: nat): nat
    requires n <= |entries|
  {
    if n == 0 then 0 else Sum(entries, n - 1) + entries[n - 1].size
  }

  /** What the counter shows behind the first `n` entries, of which the too old ones do not count. */
  function Counter(entries: seq<Entry>, n: nat, l: Limits): nat
    requires n <= |entries|
  {
    if n == 0 then 0
    else if TooOld(entries[n - 1], l) then Counter(entries, n - 1, l)
    else (Counter(entries, n - 1, l) + entries[n - 1].size) % WRAP
  }

  /** Entry `i` exceeds the size limit or the item limit. */
  predicate Overflows(entries: seq<Entry>, i: nat, l: Limits)
    requires i < |entries|
  {
    && !TooOld(entries[i], l)
    && (|| (l.maxSize > 0 && Counter(entries, i + 1, l) > l.maxSize)
        || (l.maxItems > 0 && i >= l.maxItems))
  }

  predicate Pruned(entries: seq<Entry>, i: nat, l: Limits)
    requires i < |entries|
  {
    TooOld(entries[i], l) || Overflows(entries, i, l)
  }

  /** The prune loop: which entries are removed, and which of them are recorded as overflow. */
  method Prune(entries: seq<Entry>, l: Limits) returns (pruned: seq<bool>, overflow: seq<bool>)
    ensures |pruned| == |overflow| == |entries|
    ensures forall i :: 0 <= i < |entries| ==> pruned[i] == Pruned(entries, i, l)
    ensures forall i :: 0 <= i < |entries| ==> overflow[i] == (pruned[i] && !TooOld(entries[i], l))
  {
    pruned, overflow := [], [];
    var accumulated := 0;
    for i := 0 to |entries|
      invariant |pruned| == |overflow| == i
      invariant accumulated == Counter(entries, i, l)
      invariant forall k :: 0 <= k < i ==> pruned[k] == Pruned(entries, k, l)
      invariant forall k :: 0 <= k < i ==> overflow[k] == (pruned[k] && !TooOld(entries[k], l))
    {
      var shouldPrune, cacheOverflow := false, false;
      if TooOld(entries[i], l) {
        shouldPrune := true;
      } else {
        accumulated := (accumulated + entries[i].size) % WRAP;
        if l.maxSize > 0 && accumulated > l.maxSize {
          shouldPrune, cacheOverflow := true, true;
        }
        if l.maxItems > 0 && i >= l.maxItems {
          shouldPrune, cacheOverflow := true, true;
        }
      }
      pruned, overflow := pruned + [shouldPrune], overflow + [cacheOverflow];
    }
  }

  // ---------------------------------------------------------------------------- limits

  /** The first `n` entries meet all limits together. */
  predicate Meets(entries: seq<Entry>, n: nat, l: Limits)
    requires n <= |entries|
  {
    && (l.maxAge > 0 ==> forall i :: 0 <= i < n ==> l.now - entries[i].mtime <= l.maxAge)
    && (l.maxSize > 0 ==> Sum(entries, n) <= l.maxSize)
    && (l.maxItems > 0 ==> n <= l.maxItems)
  }

  /** The longest prefix that meets the limits. */
  ghost predicate IsLongest(entries: seq<Entry>, n: nat, l: Limits) {
    && n <= |entries|
    && Meets(entries, n, l)
    && forall m :: n < m <= |entries| ==> !Meets(entries, m, l)
  }

  /** Exactly the first `n` entries are kept. */
  predicate KeepsFirst(entries: seq<Entry>, n: nat, l: Limits) {
    forall i :: 0 <= i < |entries| ==> (Pruned(entries, i, l) <==> i >= n)
  }

  /** No entry that counts slips in because the counter wrapped around: where the sizes up to it
      exceed the size limit, the counter does so too. */
  predicate NoFalseFit(entries: seq<Entry>, l: Limits) {
    l.maxSize > 0 ==>
      forall i :: 0 <= i < |entries| && !TooOld(entries[i], l) && (l.maxItems > 0 ==> i < l.maxItems) ==>
        Sum(entries, i + 1) <= l.maxSize || Sum(entries, i + 1) % WRAP > l.maxSize
  }

  lemma {:induction false} SumGrows(entries: seq<Entry>, m: nat, n: nat)
    requires m <= n <= |entries|
    ensures Sum(entries, m) <= Sum(entries, n)
  {
    if m < n {
      SumGrows(entries, m, n - 1);
    }
  }

  lemma WrapsOnce(a: nat, b: nat)
    ensures (a % WRAP + b) % WRAP == (a + b) % WRAP
  {
    var q, r := (a % WRAP + b) / WRAP, (a % WRAP + b) % WRAP;
    assert a + b == (a / WRAP + q) * WRAP + r;
  }

  lemma {:induction false} CounterIsSum(entries: seq<Entry>, n: nat, l: Limits)
    requires n <= |entries| && forall i :: 0 <= i < n ==> !TooOld(entries[i], l)
    ensures Counter(entries, n, l) == Sum(entries, n) % WRAP
  {
    if n > 0 {
      CounterIsSum(entries, n - 1, l);
      WrapsOnce(Sum(entries, n - 1), entries[n - 1].size);
    }
  }

  lemma AgeIsMonotone(entries: seq<Entry>, i: nat, l: Limits)
    requires NewestFirst(entries) && i < |entries|
    ensures !TooOld(entries[i], l) ==> forall k :: 0 <= k <= i ==> !TooOld(entries[k], l)
    ensures TooOld(entries[i], l) ==> forall k :: i <= k < |entries| ==> TooOld(entries[k], l)
  {
  }

  lemma {:induction false} LongestExists(entries: seq<Entry>, n: nat, l: Limits) returns (longest: nat)
    requires n <= |entries| && forall m :: n < m <= |entries| ==> !Meets(entries, m, l)
    ensures IsLongest(entries, longest, l)
  {
    if Meets(entries, n, l) {
      longest := n;
    } else {
      longest := LongestExists(entries, n - 1, l);
    }
  }

  /** What is in the longest prefix is kept. */
  lemma InsideIsKept(entries: seq<Entry>, n: nat, l: Limits, i: nat)
    requires l.maxSize < WRAP && IsLongest(entries, n, l) && i < n
    ensures !Pruned(entries, i, l)
  {
    SumGrows(entries, i + 1, n);
    CounterIsSum(entries, i + 1, l);
  }

  /** What is behind it is removed, unless the counter wrapped around. */
  lemma OutsideIsPruned(entries: seq<Entry>, n: nat, l: Limits, i: nat)
    requires NewestFirst(entries) && NoFalseFit(entries, l) && IsLongest(entries, n, l) && n <= i < |entries|
    ensures Pruned(entries, i, l)
  {
    assert !Meets(entries, n + 1, l);
    AgeIsMonotone(entries, n, l);
    if !TooOld(entries[i], l) && (l.maxItems > 0 ==> i < l.maxItems) {
      AgeIsMonotone(entries, i, l);
      SumGrows(entries, n + 1, i + 1);
      CounterIsSum(entries, i + 1, l);
    }
  }

  /** Pruning keeps exactly the longest prefix of the newest-first order that meets the age, size and
      item limits together, if and only if no entry slips in by a wrap-around of the counter. */
  lemma KeepsLongestPrefix(entries: seq<Entry>, l: Limits)
    requires NewestFirst(entries) && l.maxSize < WRAP
    ensures (exists n :: IsLongest(entries, n, l) && KeepsFirst(entries, n, l)) <==> NoFalseFit(entries, l)
  {
    var n := LongestExists(entries, |entries|, l);
    if NoFalseFit(entries, l) {
      forall i | 0 <= i < |entries| ensures Pruned(entries, i, l) <==> i >= n {
        if i < n { InsideIsKept(entries, n, l, i); } else { OutsideIsPruned(entries, n, l, i); }
      }
      assert KeepsFirst(entries, n, l);
    } else {
      var i :| 0 <= i < |entries| && !TooOld(entries[i], l) && (l.maxItems > 0 ==> i < l.maxItems)
        && !(Sum(entries, i + 1) <= l.maxSize || Sum(entries, i + 1) % WRAP > l.maxSize);
      FalseFitIsKept(entries, l, i);
      forall m | IsLongest(entries, m, l)
        ensures !KeepsFirst(entries, m, l)
      {
        if i < m {
          SumGrows(entries, i + 1, m);
        }
      }
    }
  }

  lemma FalseFitIsKept(entries: seq<Entry>, l: Limits, i: nat)
    requires NewestFirst(entries) && i < |entries| && !TooOld(entries[i], l) && (l.maxItems > 0 ==> i < l.maxItems)
    requires Sum(entries, i + 1) % WRAP <= l.maxSize
    ensures !Pruned(entries, i, l)
  {
    AgeIsMonotone(entries, i, l);
    CounterIsSum(entries, i + 1, l);
  }

  /** A directory whose sizes add up to less than 2^64 bytes is always pruned as intended. */
  lemma SmallSizesFit(entries: seq<Entry>, l: Limits)
    requires Sum(entries, |entries|) < WRAP
    ensures NoFalseFit(entries, l)
  {
    forall n: nat | n <= |entries| ensures Sum(entries, n) < WRAP { SumGrows(entries, n, |entries|); }
  }

  /** Two entries of 2^63 bytes each are both kept under a limit of 2^63 bytes. */
  lemma WrapAroundKeepsTooMuch()
    ensures var half := WRAP / 2;
            var entries, l := [Entry("a", 1, half), Entry("b", 0, half)], Limits(0, 0, half, 0);
            && NewestFirst(entries) && !NoFalseFit(entries, l) && Sum(entries, 2) > l.maxSize
            && !Pruned(entries, 0, l) && !Pruned(entries, 1, l)
  {
    var half := WRAP / 2;
    var entries, l := [Entry("a", 1, half), Entry("b", 0, half)], Limits(0, 0, half, 0);
    assert Sum(entries, 1) == half && Sum(entries, 2) == WRAP;
    FalseFitIsKept(entries, l, 0);
    FalseFitIsKept(entries, l, 1);
    assert !(Sum(entries, 1 + 1) <= l.maxSize || Sum(entries, 1 + 1) % WRAP > l.maxSize);
  }

  lemma {:induction false} SumOfRest(entries: seq<Entry>, k: nat, n: nat)
    requires k < n <= |entries|
    ensures Sum(entries, n) == entries[k].size + Sum(entries[..k] + entries[k + 1..], n - 1)
  {
    var rest := entries[..k] + entries[k + 1..];
    if k + 1 < n {
      SumOfRest(entries, k, n - 1);
      assert rest[n - 2] == entries[n - 1];
    } else {
      SumOfFront(entries, rest, k);
    }
  }

  lemma {:induction false} SumOfFront(a: seq<Entry>, b: seq<Entry>, n: nat)
    requires n <= |a| && n <= |b| && a[..n] == b[..n]
    ensures Sum(a, n) == Sum(b, n)
  {
    if n > 0 {
      assert a[..n][n - 1] == b[..n][n - 1];
      assert a[..n - 1] == a[..n][..n - 1] == b[..n][..n - 1] == b[..n - 1];
      SumOfFront(a, b, n - 1);
    }
  }

  lemma TakeOut(a: seq<Entry>, i: nat)
    requires i < |a|
    ensures multiset(a[..i] + a[i + 1..]) == multiset(a) - multiset{a[i]}
  {
    assert a == a[..i] + [a[i]] + a[i + 1..];
  }

  /** The total size does not depend on the order. */
  lemma {:induction false} SumOfArranged(a: seq<Entry>, b: seq<Entry>)
    requires multiset(a) == multiset(b)
    ensures |a| == |b| && Sum(a, |a|) == Sum(b, |b|)
  {
    assert |multiset(a)| == |a| && |multiset(b)| == |b|;
    if a != [] {
      var last := |a| - 1;
      assert a[last] in multiset(b);
      var k :| 0 <= k < |b| && b[k] == a[last];
      var rest := b[..k] + b[k + 1..];
      TakeOut(a, last);
      TakeOut(b, k);
      assert a[..last] + a[last + 1..] == a[..last];
      SumOfArranged(a[..last], rest);
      SumOfRest(b, k, |b|);
      SumOfFront(a, a[..last], last);
    }
  }

  /** The whole cleanup of a directory listing, in whatever order it comes: the listing is put in
      order and exactly the longest prefix that meets all limits together is kept, if and only if no
      entry slips in by a wrap-around of the counter.  None does if all sizes add up to less than
      2^64 bytes. */
  method Cleanup(listing: seq<Entry>, l: Limits)
    returns (entries: seq<Entry>, pruned: seq<bool>, overflow: seq<bool>)
    requires l.maxSize < WRAP
    ensures Arranges(entries, listing) && |pruned| == |overflow| == |entries|
    ensures (exists n :: IsLongest(entries, n, l) && forall i :: 0 <= i < |entries| ==> (pruned[i] <==> i >= n))
            <==> NoFalseFit(entries, l)
    ensures Sum(listing, |listing|) < WRAP ==> NoFalseFit(entries, l)
    ensures forall i :: 0 <= i < |entries| ==> overflow[i] == (pruned[i] && !TooOld(entries[i], l))
  {
    hide NoFalseFit, IsLongest, Pruned, TooOld;
    entries := Sort(listing);
    pruned, overflow := Prune(entries, l);
    KeepsLongestPrefix(entries, l);
    SumOfArranged(entries, listing);
    if Sum(listing, |listing|) < WRAP {
      SmallSizesFit(entries, l);
    }
    assert forall n {:trigger IsLongest(entries, n, l)} ::
        KeepsFirst(entries, n, l) <==> forall i :: 0 <= i < |entries| ==> (pruned[i] <==> i >= n);
  }
}
