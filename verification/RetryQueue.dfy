/**
 The retry queue (src/sentry_retry.c), whose state is the names of the files in the cache
 directory.

 A pass lists the directory, sorts what is due and hands envelope after envelope to the send
 callback, until the first network failure.  Between two envelopes other threads may add or
 remove files, and the process may end; the next process starts from the files.
 */
module RetryQueue {
  import opened Prelude
  import opened Bytes
  import opened CacheName

  const ATTEMPTS: nat := 6
  const INTERVAL: nat := 15 * 60 * 1000

  datatype Keep = NoKeep | Offline | Always

  /** The cache directory: file names and the envelope, by number, that each file holds.  `sent` is
      what was handed to the send callback so far, and `next` numbers new envelopes. */
  datatype Store = Store(files: map<Bytes, nat>, sent: multiset<nat>, next: nat)

  predicate IsRetry(name: Bytes) {
    Parse(name).Some? && Parse(name).value.count >= 0
  }

  function Count(name: Bytes): int {
    if Parse(name).Some? then Parse(name).value.count else -1
  }

  function Backoff(count: int): nat {
    var n := if count < 0 then 0 else if count > 5 then 5 else count;
    if n == 0 then INTERVAL
    else if n == 1 then 2 * INTERVAL
    else if n == 2 then 4 * INTERVAL
    else if n == 3 then 8 * INTERVAL
    else if n == 4 then 16 * INTERVAL
    else 32 * INTERVAL
  }

  function Pow2(n: nat): nat {
    if n == 0 then 1 else 2 * Pow2(n - 1)
  }

  /** The wait doubles with every attempt, up to the fifth. */
  lemma BackoffDoubles(count: int)
    ensures Backoff(count) == INTERVAL * Pow2(if count < 0 then 0 else if count > 5 then 5 else count)
  {
    assert Pow2(1) == 2 && Pow2(2) == 4 && Pow2(3) == 8 && Pow2(4) == 16 && Pow2(5) == 32;
  }

  /** Whether a pass takes a file: with `before` it takes what is older, without it what has waited
      for its back-off. */
  predicate Due(name: Bytes, before: nat, now: nat) {
    && IsRetry(name)
    && var ts := Parse(name).value.ts;
       if before > 0 then ts < before else ts <= now && now - ts >= Backoff(Count(name))
  }

  // ------------------------------------------------------------------------------- order

  function CompareText(a: Bytes, b: Bytes): int {
    if a == [] then (if b == [] then 0 else -1)
    else if b == [] then 1
    else if a[0] != b[0] then a[0] as int - b[0] as int
    else CompareText(a[1..], b[1..])
  }

  /** The order in which envelopes are retried: oldest first, then fewest attempts, then id. */
  function Compare(a: Name, b: Name): int {
    if a.ts != b.ts then (if a.ts < b.ts then -1 else 1)
    else if a.count != b.count then a.count - b.count
    else CompareText(a.uuid, b.uuid)
  }

  predicate InOrder(a: Bytes, b: Bytes) {
    Parse(a).Some? && Parse(b).Some? && Compare(Parse(a).value, Parse(b).value) <= 0
  }

  predicate Sorted(names: seq<Bytes>) {
    forall i, j :: 0 <= i < j < |names| ==> InOrder(names[i], names[j])
  }

  /** The order of the bytes at the first place where the two differ. */
  predicate TextBefore(a: Bytes, b: Bytes, p: nat) {
    && p <= |a| && p < |b| && a[..p] == b[..p]
    && (p == |a| || a[p] < b[p])
  }

  /** Texts are compared byte by byte. */
  lemma {:induction false} TextOrderIsByBytes(a: Bytes, b: Bytes)
    ensures CompareText(a, b) < 0 <==> exists p: nat :: TextBefore(a, b, p)
    ensures CompareText(a, b) == 0 <==> a == b
  {
    if a == [] {
      assert b != [] ==> TextBefore(a, b, 0);
    } else if b != [] {
      if a[0] == b[0] {
        TextOrderIsByBytes(a[1..], b[1..]);
        assert a == [a[0]] + a[1..] && b == [b[0]] + b[1..];
        if p: nat :| TextBefore(a[1..], b[1..], p) {
          assert a[..p + 1] == [a[0]] + a[1..][..p] && b[..p + 1] == [b[0]] + b[1..][..p];
          assert TextBefore(a, b, p + 1);
        }
        if p: nat :| TextBefore(a, b, p) {
          assert p > 0;
          assert a[1..][..p - 1] == a[..p][1..] && b[1..][..p - 1] == b[..p][1..];
          assert TextBefore(a[1..], b[1..], p - 1);
        }
      } else {
        assert a[0] < b[0] ==> TextBefore(a, b, 0);
        assert forall p: nat :: TextBefore(a, b, p) ==> p == 0 || a[..p][0] == b[..p][0];
      }
    }
  }

  lemma {:induction false} TextOrderIsTotal(a: Bytes, b: Bytes)
    ensures CompareText(a, b) <= 0 || CompareText(b, a) <= 0
  {
    if a != [] && b != [] && a[0] == b[0] {
      TextOrderIsTotal(a[1..], b[1..]);
    }
  }

  lemma {:induction false} TextOrderIsTransitive(a: Bytes, b: Bytes, c: Bytes)
    requires CompareText(a, b) <= 0 && CompareText(b, c) <= 0
    ensures CompareText(a, c) <= 0
  {
    if a != [] && b != [] && c != [] && a[0] == b[0] == c[0] {
      TextOrderIsTransitive(a[1..], b[1..], c[1..]);
    }
  }

  lemma OrderIsTransitive(a: Bytes, b: Bytes, c: Bytes)
    requires InOrder(a, b) && InOrder(b, c)
    ensures InOrder(a, c)
  {
    hide Parse, CompareText;
    var x, y, z := Parse(a).value, Parse(b).value, Parse(c).value;
    if x.ts == y.ts == z.ts && x.count == y.count == z.count {
      TextOrderIsTransitive(x.uuid, y.uuid, z.uuid);
    }
  }

  lemma OrderIsTotal(a: Bytes, b: Bytes)
    requires Parse(a).Some? && Parse(b).Some?
    ensures InOrder(a, b) || InOrder(b, a)
  {
    hide Parse, CompareText;
    TextOrderIsTotal(Parse(a).value.uuid, Parse(b).value.uuid);
  }

  /** `name` put where it belongs in a sorted list. */
  function Insert(name: Bytes, names: seq<Bytes>): (r: seq<Bytes>)
    ensures multiset(r) == multiset(names) + multiset{name}
  {
    if names == [] || InOrder(name, names[0]) then
      [name] + names
    else
      assert names == [names[0]] + names[1..];
      [names[0]] + Insert(name, names[1..])
  }

  lemma {:induction false} InsertSorts(name: Bytes, names: seq<Bytes>)
    requires Sorted(names) && Parse(name).Some? && forall i :: 0 <= i < |names| ==> Parse(names[i]).Some?
    ensures Sorted(Insert(name, names))
  {
    hide Parse, InOrder;
    if names != [] {
      if InOrder(name, names[0]) {
        forall i | 0 <= i < |names| ensures InOrder(name, names[i]) {
          if i > 0 {
            OrderIsTransitive(name, names[0], names[i]);
          }
        }
      } else {
        OrderIsTotal(name, names[0]);
        InsertSorts(name, names[1..]);
        var r := Insert(name, names[1..]);
        forall i | 0 <= i < |r| ensures InOrder(names[0], r[i]) {
          assert r[i] in multiset(r);
          assert r[i] == name || r[i] in names[1..];
        }
      }
    }
  }

  /** The list in the order of retries. */
  function Sort(names: seq<Bytes>): (r: seq<Bytes>)
    ensures multiset(r) == multiset(names)
  {
    if names == [] then []
    else
      assert names == [names[0]] + names[1..];
      Insert(names[0], Sort(names[1..]))
  }

  lemma {:induction false} SortSorts(names: seq<Bytes>)
    requires forall i :: 0 <= i < |names| ==> Parse(names[i]).Some?
    ensures Sorted(Sort(names)) && forall i :: 0 <= i < |Sort(names)| ==> Parse(Sort(names)[i]).Some?
  {
    hide Parse, InOrder;
    if names != [] {
      SortSorts(names[1..]);
      InsertSorts(names[0], Sort(names[1..]));
      var r := Sort(names);
      forall i | 0 <= i < |r| ensures Parse(r[i]).Some? {
        assert r[i] in multiset(r);
        assert r[i] in names;
      }
    }
  }

  // ------------------------------------------------------------------------------- steps

  /** What happens to one envelope: files that come and go before it, whether its file can be read, the
      status of the send, the time, and the name and success of a copy that is kept. */
  datatype Turn = Turn(arrivals: seq<Arrival>, loads: bool, status: int, now: nat, copyId: Bytes, copied: bool)

  datatype Arrival = New(now: nat, uuid: Bytes) | Gone(name: Bytes)

  function Arrive(s: Store, a: Arrival): Store {
    match a
    case New(now, uuid) =>
      if now <= UINT64_MAX && |uuid| == 36
      then s.(files := s.files[Make(now, 0, uuid) := s.next], next := s.next + 1)
      else s
    case Gone(name) => s.(files := s.files - {name})
  }

  function ArriveAll(s: Store, arrivals: seq<Arrival>): Store
    decreases |arrivals|
  {
    if arrivals == [] then s else ArriveAll(Arrive(s, arrivals[0]), arrivals[1..])
  }

  function Rename(files: map<Bytes, nat>, from: Bytes, to: Bytes): map<Bytes, nat> {
    if from in files then (files - {from})[to := files[from]] else files
  }

  /** What becomes of the file of an envelope that was sent with a result. */
  function HandleResult(files: map<Bytes, nat>, name: Bytes, t: Turn, keep: Keep): map<Bytes, nat>
    requires IsRetry(name) && name in files
  {
    var n := Parse(name).value;
    if n.count + 1 < ATTEMPTS && t.status < 0 then Rename(files, name, Make(t.now, n.count + 1, n.uuid))
    else if n.count + 1 >= ATTEMPTS && keep != NoKeep && t.status < 0 then
      if keep == Always && Make(0, -1, n.uuid) in files then files - {name}
      else Rename(files, name, Make(t.now, -1, n.uuid))
    else if keep == Always && t.copied then files[Make(0, -1, t.copyId) := files[name]] - {name}
    else files - {name}
  }

  predicate ValidTurn(t: Turn) {
    t.now <= UINT64_MAX && |t.copyId| == 36
  }

  /** There is an envelope to send: a file that is gone or cannot be read gives none. */
  predicate Loads(s: Store, name: Bytes, t: Turn) {
    name in s.files && t.loads
  }

  /** One round of the send loop. */
  function SendOne(s: Store, name: Bytes, t: Turn, keep: Keep): Store
    requires IsRetry(name)
  {
    if Loads(s, name, t)
    then s.(sent := s.sent + multiset{s.files[name]}, files := HandleResult(s.files, name, t, keep))
    else s.(files := s.files - {name})
  }

  /** The send loop over the files that are due.  It ends early on a network failure, or where the
      turns end because the process does. */
  function Pass(s: Store, order: seq<Bytes>, turns: seq<Turn>, keep: Keep): Store
    requires forall i :: 0 <= i < |order| ==> IsRetry(order[i])
    decreases |order|
  {
    if order == [] || turns == [] then s
    else
      var ready := ArriveAll(s, turns[0].arrivals);
      var done := SendOne(ready, order[0], turns[0], keep);
      if Loads(ready, order[0], turns[0]) && turns[0].status < 0 then done else Pass(done, order[1..], turns[1..], keep)
  }

  // --------------------------------------------------------------------------- invariant

  /** A file waiting for a retry says how often its envelope was sent, and no envelope waits in two
      files. */
  ghost predicate Inv(s: Store) {
    && (forall name :: name in s.files && IsRetry(name) ==>
          s.files[name] < s.next && Count(name) < ATTEMPTS && s.sent[s.files[name]] == Count(name))
    && (forall a, b :: a in s.files && b in s.files && IsRetry(a) && IsRetry(b) && s.files[a] == s.files[b] ==> a == b)
    && (forall x :: s.sent[x] <= ATTEMPTS)
    && (forall x :: x >= s.next ==> s.sent[x] == 0)
  }

  lemma AddKeeps(s: Store, name: Bytes)
    requires Inv(s) && IsRetry(name) && Count(name) == 0
    ensures Inv(s.(files := s.files[name := s.next], next := s.next + 1))
  {
    hide IsRetry, Count;
  }

  lemma RemoveKeeps(s: Store, name: Bytes)
    requires Inv(s)
    ensures Inv(s.(files := s.files - {name}))
  {
    hide IsRetry, Count;
  }

  /** The store after the envelope of `name` was sent. */
  function Sent(s: Store, name: Bytes, files: map<Bytes, nat>): Store
    requires name in s.files
  {
    s.(sent := s.sent + multiset{s.files[name]}, files := files)
  }

  lemma BumpKeeps(s: Store, name: Bytes, to: Bytes)
    requires Inv(s) && name in s.files && IsRetry(name)
    requires IsRetry(to) && Count(to) == Count(name) + 1 < ATTEMPTS
    ensures Inv(Sent(s, name, Rename(s.files, name, to)))
  {
    hide IsRetry, Count;
  }

  lemma DropKeeps(s: Store, name: Bytes)
    requires Inv(s) && name in s.files && IsRetry(name)
    ensures Inv(Sent(s, name, s.files - {name}))
  {
    hide IsRetry, Count;
  }

  lemma KeepKeeps(s: Store, name: Bytes, to: Bytes)
    requires Inv(s) && name in s.files && IsRetry(name) && !IsRetry(to)
    ensures Inv(Sent(s, name, Rename(s.files, name, to)))
    ensures Inv(Sent(s, name, s.files[to := s.files[name]] - {name}))
  {
    hide IsRetry, Count;
    assert name != to;
    assert s.files[to := s.files[name]] - {name} == Rename(s.files, name, to);
  }

  lemma ArriveKeeps(s: Store, a: Arrival)
    requires Inv(s)
    ensures Inv(Arrive(s, a))
  {
    hide Inv, Parse, Make;
    match a
    case New(now, uuid) =>
      if now <= UINT64_MAX && |uuid| == 36 {
        NameRoundTrip(now, 0, uuid);
        AddKeeps(s, Make(now, 0, uuid));
      }
    case Gone(name) => RemoveKeeps(s, name);
  }

  lemma {:induction false} ArriveAllKeeps(s: Store, arrivals: seq<Arrival>)
    requires Inv(s)
    ensures Inv(ArriveAll(s, arrivals))
    decreases |arrivals|
  {
    hide Inv, Arrive;
    if arrivals != [] {
      ArriveKeeps(s, arrivals[0]);
      ArriveAllKeeps(Arrive(s, arrivals[0]), arrivals[1..]);
    }
  }

  lemma SendKeeps(s: Store, name: Bytes, t: Turn, keep: Keep)
    requires Inv(s) && IsRetry(name) && ValidTurn(t)
    ensures Inv(SendOne(s, name, t, keep))
  {
    hide Inv, Parse, Make, Rename;
    var n := Parse(name).value;
    RemoveKeeps(s, name);
    if name in s.files {
      DropKeeps(s, name);
      NameRoundTrip(t.now, -1, n.uuid);
      KeepKeeps(s, name, Make(t.now, -1, n.uuid));
      NameRoundTrip(0, -1, t.copyId);
      KeepKeeps(s, name, Make(0, -1, t.copyId));
      if n.count + 1 < ATTEMPTS {
        NameRoundTrip(t.now, n.count + 1, n.uuid);
        BumpKeeps(s, name, Make(t.now, n.count + 1, n.uuid));
      }
    }
  }

  /** The name under which an envelope is found after its send: with the next count after a network
      failure with attempts left; in the cache if a keep mode keeps it after the last one, or as the
      copy that the mode `Always` makes after any other answer. */
  function FoundAs(files: map<Bytes, nat>, name: Bytes, t: Turn, keep: Keep): Option<Bytes>
    requires IsRetry(name)
  {
    var n := Parse(name).value;
    if t.status < 0 && n.count + 1 < ATTEMPTS then Some(Make(t.now, n.count + 1, n.uuid))
    else if t.status < 0 then
      if keep == Offline || (keep == Always && Make(0, -1, n.uuid) !in files) then Some(Make(0, -1, n.uuid)) else None
    else if keep == Always && t.copied then Some(Make(0, -1, t.copyId))
    else None
  }

  /** What a result makes of the directory: the file that was sent is gone, its envelope is found
      under its new name if it has one, and all other files stay.  The new name is that of a retry
      file exactly after a network failure with attempts left. */
  ghost predicate Settles(files: map<Bytes, nat>, files': map<Bytes, nat>, name: Bytes, t: Turn, keep: Keep)
    requires IsRetry(name) && name in files
  {
    var to := FoundAs(files, name, t, keep);
    && (to.Some? ==> to.value in files' && files'[to.value] == files[name])
    && (forall other :: Some(other) != to ==>
          && (other in files' <==> other in files && other != name)
          && (other in files' ==> files'[other] == files[other]))
    && (to.Some? && IsRetry(to.value) <==> t.status < 0 && Count(name) + 1 < ATTEMPTS)
    && (to.Some? && IsRetry(to.value) ==>
          Parse(to.value) == Some(Name(t.now, Count(name) + 1, Parse(name).value.uuid)))
    && (t.status < 0 && !(Count(name) + 1 < ATTEMPTS) && keep != NoKeep ==>
          Make(0, -1, Parse(name).value.uuid) in files')
  }

  /** A name for the cache has no timestamp. */
  lemma CacheNamesHaveNoTime(ts: nat, uuid: Bytes)
    ensures Make(ts, -1, uuid) == Make(0, -1, uuid)
  {
  }

  lemma ResultSettles(files: map<Bytes, nat>, name: Bytes, t: Turn, keep: Keep)
    requires IsRetry(name) && name in files && ValidTurn(t)
    ensures Settles(files, HandleResult(files, name, t, keep), name, t, keep)
  {
    hide Parse, Make;
    var n := Parse(name).value;
    CacheNamesHaveNoTime(t.now, n.uuid);
    NameRoundTrip(0, -1, n.uuid);
    NameRoundTrip(0, -1, t.copyId);
    if n.count + 1 < ATTEMPTS {
      NameRoundTrip(t.now, n.count + 1, n.uuid);
    }
  }

  /** What a result does to the envelope that was sent: after a network failure with attempts left it
      waits under its id with the next count, and in every other case it waits no more.  Other files
      stay, but for one that has the new name. */
  lemma {:induction false} ResultDecides(s: Store, name: Bytes, t: Turn, keep: Keep, other: Bytes)
    requires Inv(s) && Loads(s, name, t) && IsRetry(name) && ValidTurn(t)
    ensures var s', n, x := SendOne(s, name, t, keep), Parse(name).value, s.files[name];
            var again := Make(t.now, n.count + 1, n.uuid);
            && (t.status < 0 && n.count + 1 < ATTEMPTS ==>
                  && again in s'.files && s'.files[again] == x
                  && Parse(again) == Some(Name(t.now, n.count + 1, n.uuid)))
            && (t.status >= 0 || n.count + 1 >= ATTEMPTS ==>
                  (other in s'.files && IsRetry(other) ==> s'.files[other] != x))
            && (other in s.files && other != name && IsRetry(other) && other != again ==>
                  other in s'.files && s'.files[other] == s.files[other])
  {
    hide Parse, Make;
    var n := Parse(name).value;
    NameRoundTrip(t.now, -1, n.uuid);
    NameRoundTrip(0, -1, t.copyId);
    if n.count + 1 < ATTEMPTS {
      NameRoundTrip(t.now, n.count + 1, n.uuid);
    }
  }

  lemma {:induction false} PassKeeps(s: Store, order: seq<Bytes>, turns: seq<Turn>, keep: Keep)
    requires Inv(s) && forall i :: 0 <= i < |order| ==> IsRetry(order[i])
    requires forall i :: 0 <= i < |turns| ==> ValidTurn(turns[i])
    ensures Inv(Pass(s, order, turns, keep))
    decreases |order|
  {
    hide Inv, IsRetry, ValidTurn, SendOne, ArriveAll;
    if order != [] && turns != [] {
      var ready := ArriveAll(s, turns[0].arrivals);
      ArriveAllKeeps(s, turns[0].arrivals);
      SendKeeps(ready, order[0], turns[0], keep);
      PassKeeps(SendOne(ready, order[0], turns[0], keep), order[1..], turns[1..], keep);
    }
  }

  // ------------------------------------------------------------------------------ the pass

  /** The files of a listing that are due. */
  function DueOf(listing: seq<Bytes>, before: nat, now: nat): (r: seq<Bytes>)
    ensures forall i :: 0 <= i < |r| ==> Due(r[i], before, now)
  {
    if listing == [] then []
    else
      var last := listing[|listing| - 1];
      DueOf(listing[..|listing| - 1], before, now) + if Due(last, before, now) then [last] else []
  }

  /** The order in which a pass takes the files. */
  function Order(listing: seq<Bytes>, before: nat, now: nat): (r: seq<Bytes>)
    ensures forall i :: 0 <= i < |r| ==> IsRetry(r[i])
  {
    var due := DueOf(listing, before, now);
    var r := Sort(due);
    assert forall i :: 0 <= i < |r| ==> IsRetry(r[i]) by {
      forall i | 0 <= i < |r| ensures IsRetry(r[i]) {
        assert r[i] in multiset(r);
        assert r[i] in due;
      }
    }
    r
  }

  /** A pass takes exactly the files that are due, oldest first. */
  lemma {:induction false} OrderIsDueOldestFirst(listing: seq<Bytes>, before: nat, now: nat)
    ensures Sorted(Order(listing, before, now))
    ensures multiset(Order(listing, before, now)) == multiset(DueOf(listing, before, now))
    ensures forall name :: name in Order(listing, before, now) <==> name in listing && Due(name, before, now)
    ensures var r := Order(listing, before, now);
            forall i, j :: 0 <= i < j < |r| ==>
              && Parse(r[i]).Some? && Parse(r[j]).Some?
              && var a, b := Parse(r[i]).value, Parse(r[j]).value;
                 a.ts <= b.ts && (a.ts == b.ts ==> a.count <= b.count)
  {
    hide Parse, Due, InOrder;
    var due, r := DueOf(listing, before, now), Order(listing, before, now);
    forall i | 0 <= i < |due| ensures Parse(due[i]).Some? { DueIsParsed(due[i], before, now); }
    SortSorts(due);
    forall name ensures name in due <==> name in listing && Due(name, before, now) {
      DueOfHas(listing, before, now, name);
    }
    forall name ensures name in r <==> name in due { assert name in r <==> name in multiset(r); }
    forall i, j | 0 <= i < j < |r|
      ensures Parse(r[i]).Some? && Parse(r[j]).Some?
      ensures var a, b := Parse(r[i]).value, Parse(r[j]).value; a.ts <= b.ts && (a.ts == b.ts ==> a.count <= b.count)
    {
      OlderFirst(r[i], r[j]);
    }
  }

  lemma OlderFirst(a: Bytes, b: Bytes)
    requires InOrder(a, b)
    ensures Parse(a).Some? && Parse(b).Some?
    ensures var x, y := Parse(a).value, Parse(b).value; x.ts <= y.ts && (x.ts == y.ts ==> x.count <= y.count)
  {
    hide Parse, CompareText;
  }

  lemma DueIsParsed(name: Bytes, before: nat, now: nat)
    requires Due(name, before, now)
    ensures Parse(name).Some?
  {
  }

  lemma {:induction false} DueOfHas(listing: seq<Bytes>, before: nat, now: nat, name: Bytes)
    ensures name in DueOf(listing, before, now) <==> name in listing && Due(name, before, now)
  {
    hide Due;
    if listing != [] {
      var k := |listing| - 1;
      DueOfHas(listing[..k], before, now, name);
      assert listing == listing[..k] + [listing[k]];
    }
  }

  class Queue {
    var files: map<Bytes, nat>
    var sent: multiset<nat>
    var next: nat
    const keep: Keep

    function Now(): Store
      reads this
    {
      Store(files, sent, next)
    }

    constructor (keep: Keep)
      ensures Now() == Store(map[], multiset{}, 0) && this.keep == keep
    {
      this.keep := keep;
      files, sent, next := map[], multiset{}, 0;
    }

    /** What becomes of a file after its envelope was sent. */
    method Finish(name: Bytes, t: Turn) returns (again: bool)
      requires IsRetry(name) && name in files
      modifies this`files
      // the directory as a value, which the proof of `Loop` needs
      ensures files == HandleResult(old(files), name, t, keep)
      ensures again <==> Count(name) + 1 < ATTEMPTS && t.status < 0
      ensures ValidTurn(t) ==> Settles(old(files), files, name, t, keep)
    {
      hide Make, Settles;
      if ValidTurn(t) {
        ResultSettles(files, name, t, keep);
      }
      var n := Parse(name).value;
      if n.count + 1 < ATTEMPTS && t.status < 0 {
        files := Rename(files, name, Make(t.now, n.count + 1, n.uuid));
        return true;
      }
      var exhausted := n.count + 1 >= ATTEMPTS;
      if exhausted && keep != NoKeep && t.status < 0 {
        if keep == Always && Make(0, -1, n.uuid) in files {
          files := files - {name};
          return false;
        }
        files := Rename(files, name, Make(t.now, -1, n.uuid));
        return false;
      }
      if keep == Always && t.copied {
        files := files[Make(0, -1, t.copyId) := files[name]];
      }
      files := files - {name};
      return false;
    }

    /** One pass over a directory listing.  `turns` gives what happens around each send; the process
        ends where it is shorter than the work. */
    method Send(listing: seq<Bytes>, before: nat, now: nat, turns: seq<Turn>)
      modifies this
      ensures Now() == Pass(old(Now()), Order(listing, before, now), turns, keep)
    {
      hide Due, ArriveAll, HandleResult;
      var items := [];
      for i := 0 to |listing|
        invariant items == DueOf(listing[..i], before, now)
        invariant unchanged(this)
      {
        assert listing[..i + 1][..i] == listing[..i];
        if Due(listing[i], before, now) {
          items := items + [listing[i]];
        }
      }
      assert listing[..|listing|] == listing;
      items := Sort(items);
      assert items == Order(listing, before, now);
      Loop(items, turns);
    }

    /** The send loop. */
    method Loop(items: seq<Bytes>, turns: seq<Turn>)
      requires forall i :: 0 <= i < |items| ==> IsRetry(items[i])
      modifies this
      ensures Now() == Pass(old(Now()), items, turns, keep)
    {
      hide IsRetry, ArriveAll, HandleResult;
      assert items[0..] == items && turns[0..] == turns;
      for i := 0 to |items|
        invariant i <= |turns|
        invariant Pass(old(Now()), items, turns, keep) == Pass(Now(), items[i..], turns[i..], keep)
      {
        if i == |turns| {
          return;
        }
        assert items[i..][1..] == items[i + 1..] && turns[i..][1..] == turns[i + 1..];
        var ready := ArriveAll(Now(), turns[i].arrivals);
        files, sent, next := ready.files, ready.sent, ready.next;
        if !(items[i] in files && turns[i].loads) {
          files := files - {items[i]};
        } else {
          sent := sent + multiset{files[items[i]]};
          var again := Finish(items[i], turns[i]);
          if turns[i].status < 0 {
            return;
          }
        }
      }
    }
  }

  // ----------------------------------------------------------------------------- whole runs

  datatype Action =
    | Change(arrival: Arrival)
    | Retry(listing: seq<Bytes>, before: nat, now: nat, turns: seq<Turn>, keep: Keep)

  function Do(s: Store, a: Action): Store {
    match a
    case Change(arrival) => Arrive(s, arrival)
    case Retry(listing, before, now, turns, keep) =>
      if forall i :: 0 <= i < |turns| ==> ValidTurn(turns[i])
      then Pass(s, Order(listing, before, now), turns, keep)
      else s
  }

  function DoAll(s: Store, actions: seq<Action>): Store {
    if actions == [] then s else Do(DoAll(s, actions[..|actions| - 1]), actions[|actions| - 1])
  }

  lemma {:induction false} DoAllKeeps(actions: seq<Action>)
    ensures Inv(DoAll(Store(map[], multiset{}, 0), actions))
  {
    if actions != [] {
      var a, s := actions[|actions| - 1], DoAll(Store(map[], multiset{}, 0), actions[..|actions| - 1]);
      DoAllKeeps(actions[..|actions| - 1]);
      hide Inv, Pass, Order, Arrive;
      match a
      case Change(arrival) => ArriveKeeps(s, arrival);
      case Retry(listing, before, now, turns, keep) =>
        if forall i :: 0 <= i < |turns| ==> ValidTurn(turns[i]) {
          PassKeeps(s, Order(listing, before, now), turns, keep);
        }
    }
  }

  /** Across any sequence of passes and restarts, whatever arrives or goes in between, an envelope is
      handed to the send callback at most six times; and a file that waits says in its name how often
      its envelope was. */
  lemma {:induction false} AtMostSixSends(actions: seq<Action>, envelope: nat, name: Bytes)
    ensures var s := DoAll(Store(map[], multiset{}, 0), actions);
            && s.sent[envelope] <= ATTEMPTS
            && (name in s.files && IsRetry(name) ==> s.sent[s.files[name]] == Count(name) < ATTEMPTS)
  {
    DoAllKeeps(actions);
    hide DoAll;
  }
}
