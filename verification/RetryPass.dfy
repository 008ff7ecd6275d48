/**
 What a pass over the retry queue hands over (src/sentry_retry.c), round by round: it ends behind the
 first network failure, every envelope it came to is handed over once, and what it did not come to
 stays as it is.
 */
module RetryPass {
  import opened Prelude
  import opened Bytes
  import opened CacheName
  import opened RetryQueue

  // ------------------------------------------------------------------------------ rounds

  predicate Listed(order: seq<Bytes>, n: nat) {
    n <= |order| && forall i :: 0 <= i < n ==> IsRetry(order[i])
  }

  /** The store after `n` rounds, if none of them is the last. */
  function Rounds(s: Store, order: seq<Bytes>, turns: seq<Turn>, keep: Keep, n: nat): Store
    requires Listed(order, n) && n <= |turns|
    decreases n, 0
  {
    if n == 0 then s
    else SendOne(AtTurn(s, order, turns, keep, n - 1), order[n - 1], turns[n - 1], keep)
  }

  /** The store when the turn of file `k` comes. */
  function AtTurn(s: Store, order: seq<Bytes>, turns: seq<Turn>, keep: Keep, k: nat): Store
    requires Listed(order, k) && k < |turns|
    decreases k, 1
  {
    ArriveAll(Rounds(s, order, turns, keep, k), turns[k].arrivals)
  }

  /** An envelope is handed over in round `k`. */
  predicate Sends(s: Store, order: seq<Bytes>, turns: seq<Turn>, keep: Keep, k: nat)
    requires Listed(order, k) && k < |order| && k < |turns|
  {
    var now := AtTurn(s, order, turns, keep, k);
    order[k] in now.files && turns[k].loads
  }

  /** Round `k` ends with a network failure. */
  predicate Fails(s: Store, order: seq<Bytes>, turns: seq<Turn>, keep: Keep, k: nat)
    requires Listed(order, k) && k < |order| && k < |turns|
  {
    Sends(s, order, turns, keep, k) && turns[k].status < 0
  }

  /** A pass of `n` rounds: all went well before the last, and it ends with a network failure, with the
      last file, or with the process. */
  ghost predicate IsPass(s: Store, order: seq<Bytes>, turns: seq<Turn>, keep: Keep, n: nat)
    requires Listed(order, |order|)
  {
    && n <= |order| && n <= |turns|
    && (forall k :: 0 <= k < n - 1 ==> !Fails(s, order, turns, keep, k))
    && (n == |order| || n == |turns| || (n > 0 && Fails(s, order, turns, keep, n - 1)))
  }

  lemma {:induction false} RoundsFromSecond(s: Store, order: seq<Bytes>, turns: seq<Turn>, keep: Keep, n: nat)
    requires order != [] && turns != [] && Listed(order, |order|) && n < |order| && n < |turns|
    ensures Listed(order[1..], n)
    ensures Rounds(s, order, turns, keep, n + 1)
         == Rounds(Rounds(s, order, turns, keep, 1), order[1..], turns[1..], keep, n)
  {
    hide SendOne, ArriveAll, IsRetry;
    if n > 0 {
      RoundsFromSecond(s, order, turns, keep, n - 1);
    }
  }

  lemma TurnsFromSecond(s: Store, order: seq<Bytes>, turns: seq<Turn>, keep: Keep, k: nat)
    requires order != [] && turns != [] && Listed(order, |order|) && k + 1 < |order| && k + 1 < |turns|
    ensures Listed(order[1..], |order| - 1)
    ensures Fails(s, order, turns, keep, k + 1)
       <==> Fails(Rounds(s, order, turns, keep, 1), order[1..], turns[1..], keep, k)
  {
    hide SendOne, ArriveAll, IsRetry, Rounds;
    RoundsFromSecond(s, order, turns, keep, k);
  }

  /** The pass is a number of rounds, up to the first network failure. */
  lemma {:induction false} PassIsRounds(s: Store, order: seq<Bytes>, turns: seq<Turn>, keep: Keep) returns (n: nat)
    requires Listed(order, |order|)
    ensures IsPass(s, order, turns, keep, n)
    ensures Pass(s, order, turns, keep) == Rounds(s, order, turns, keep, n)
    decreases |order|
  {
    hide SendOne, ArriveAll, IsRetry, Loads;
    if order == [] || turns == [] {
      n := 0;
    } else {
      var done := Rounds(s, order, turns, keep, 1);
      assert AtTurn(s, order, turns, keep, 0) == ArriveAll(s, turns[0].arrivals);
      FailsIsStop(s, order, turns, keep);
      if Fails(s, order, turns, keep, 0) {
        n := 1;
      } else {
        var m := PassIsRounds(done, order[1..], turns[1..], keep);
        n := m + 1;
        hide Rounds, Fails, Pass;
        RoundsFromSecondUpTo(s, order, turns, keep, m);
      }
    }
  }

  lemma FailsIsStop(s: Store, order: seq<Bytes>, turns: seq<Turn>, keep: Keep)
    requires Listed(order, |order|) && order != [] && turns != []
    ensures Fails(s, order, turns, keep, 0)
       <==> Loads(ArriveAll(s, turns[0].arrivals), order[0], turns[0]) && turns[0].status < 0
  {
    hide ArriveAll, IsRetry;
    assert Rounds(s, order, turns, keep, 0) == s;
  }

  lemma RoundsFromSecondUpTo(s: Store, order: seq<Bytes>, turns: seq<Turn>, keep: Keep, m: nat)
    requires order != [] && turns != [] && Listed(order, |order|) && Listed(order[1..], |order| - 1)
    requires !Fails(s, order, turns, keep, 0)
    requires IsPass(Rounds(s, order, turns, keep, 1), order[1..], turns[1..], keep, m)
    ensures IsPass(s, order, turns, keep, m + 1)
    ensures Rounds(Rounds(s, order, turns, keep, 1), order[1..], turns[1..], keep, m)
         == Rounds(s, order, turns, keep, m + 1)
  {
    hide Rounds, Fails, IsRetry;
    if m < |order| && m < |turns| {
      RoundsFromSecond(s, order, turns, keep, m);
    }
    forall k | 0 <= k && k + 1 < |order| && k + 1 < |turns|
      ensures Fails(s, order, turns, keep, k + 1)
         <==> Fails(Rounds(s, order, turns, keep, 1), order[1..], turns[1..], keep, k)
    {
      TurnsFromSecond(s, order, turns, keep, k);
    }
    forall k | 0 <= k < m ensures !Fails(s, order, turns, keep, k) {
      if k > 0 {
        assert !Fails(Rounds(s, order, turns, keep, 1), order[1..], turns[1..], keep, k - 1);
        TurnsFromSecond(s, order, turns, keep, k - 1);
      }
    }
  }

  // ------------------------------------------------------------------ what is handed over

  /** The envelopes handed over in the first `n` rounds. */
  function HandedOver(s: Store, order: seq<Bytes>, turns: seq<Turn>, keep: Keep, n: nat): multiset<nat>
    requires Listed(order, n) && n <= |turns|
  {
    if n == 0 then multiset{}
    else
      HandedOver(s, order, turns, keep, n - 1)
      + if Sends(s, order, turns, keep, n - 1)
        then multiset{AtTurn(s, order, turns, keep, n - 1).files[order[n - 1]]}
        else multiset{}
  }

  lemma {:induction false} ArrivalsSendNothing(s: Store, arrivals: seq<Arrival>)
    ensures ArriveAll(s, arrivals).sent == s.sent
    decreases |arrivals|
  {
    hide Make;
    if arrivals != [] {
      ArrivalsSendNothing(Arrive(s, arrivals[0]), arrivals[1..]);
    }
  }

  lemma {:induction false} RoundsSend(s: Store, order: seq<Bytes>, turns: seq<Turn>, keep: Keep, n: nat)
    requires Listed(order, n) && n <= |turns|
    ensures Rounds(s, order, turns, keep, n).sent == s.sent + HandedOver(s, order, turns, keep, n)
  {
    hide ArriveAll, IsRetry, HandleResult;
    if n > 0 {
      RoundsSend(s, order, turns, keep, n - 1);
      ArrivalsSendNothing(Rounds(s, order, turns, keep, n - 1), turns[n - 1].arrivals);
    }
  }

  // ------------------------------------------------------------------- what is left alone

  /** The arrival is about the file `name`. */
  predicate Concerns(a: Arrival, name: Bytes) {
    match a
    case New(now, uuid) => name == Make(now, 0, uuid)
    case Gone(x) => name == x
  }

  /** Somebody else made or removed the file `name` before the turn. */
  predicate Meddled(t: Turn, name: Bytes) {
    exists i :: 0 <= i < |t.arrivals| && Concerns(t.arrivals[i], name)
  }

  predicate SameFile(a: Store, b: Store, name: Bytes) {
    (name in a.files <==> name in b.files) && (name in a.files ==> a.files[name] == b.files[name])
  }

  lemma {:induction false} ArrivalsLeave(s: Store, arrivals: seq<Arrival>, name: Bytes)
    requires forall i :: 0 <= i < |arrivals| ==> !Concerns(arrivals[i], name)
    ensures SameFile(s, ArriveAll(s, arrivals), name)
    decreases |arrivals|
  {
    hide Make;
    if arrivals != [] {
      ArrivalsLeave(Arrive(s, arrivals[0]), arrivals[1..], name);
    }
  }

  /** The next name of a file that is sent in the turn. */
  function NextName(name: Bytes, t: Turn): Bytes
    requires IsRetry(name)
  {
    Make(t.now, Count(name) + 1, Parse(name).value.uuid)
  }

  lemma SendLeaves(s: Store, sent: Bytes, t: Turn, keep: Keep, name: Bytes)
    requires IsRetry(sent) && IsRetry(name) && name != sent && ValidTurn(t)
    requires Loads(s, sent, t) && t.status < 0 ==> name != NextName(sent, t)
    ensures SameFile(s, SendOne(s, sent, t, keep), name)
  {
    hide Parse, Make, HandleResult, IsRetry;
    if Loads(s, sent, t) {
      ResultSettles(s.files, sent, t, keep);
      NextNameIs(s.files, sent, t, keep);
      hide FoundAs;
      assert Some(name) != FoundAs(s.files, sent, t, keep);
    }
  }

  lemma NextNameIs(files: map<Bytes, nat>, sent: Bytes, t: Turn, keep: Keep)
    requires IsRetry(sent)
    ensures t.status < 0 && Count(sent) + 1 < ATTEMPTS ==> FoundAs(files, sent, t, keep) == Some(NextName(sent, t))
  {
    hide Parse, Make;
  }

  /** The file `name` is not among the first `n` of the order, nobody else makes or removes it, and no
      envelope whose send failed takes its name. */
  ghost predicate Untouched(s: Store, order: seq<Bytes>, turns: seq<Turn>, keep: Keep, n: nat, name: Bytes)
    requires Listed(order, n) && n <= |turns|
  {
    forall k :: 0 <= k < n ==>
      && order[k] != name && !Meddled(turns[k], name)
      && (Fails(s, order, turns, keep, k) ==> name != NextName(order[k], turns[k]))
  }

  lemma {:induction false} RoundsLeave(s: Store, order: seq<Bytes>, turns: seq<Turn>, keep: Keep, n: nat, name: Bytes)
    requires Listed(order, n) && n <= |turns| && IsRetry(name)
    requires forall k :: 0 <= k < n ==> ValidTurn(turns[k])
    requires Untouched(s, order, turns, keep, n, name)
    ensures SameFile(s, Rounds(s, order, turns, keep, n), name)
  {
    hide IsRetry, ArriveAll, SendOne, NextName, ValidTurn;
    if n > 0 {
      RoundsLeave(s, order, turns, keep, n - 1, name);
      ArrivalsLeave(Rounds(s, order, turns, keep, n - 1), turns[n - 1].arrivals, name);
      SendLeaves(AtTurn(s, order, turns, keep, n - 1), order[n - 1], turns[n - 1], keep, name);
    }
  }

  // ---------------------------------------------------------------------------- theorems

  /** Every pass over any order of retry files, whatever arrives and goes in between: it comes to the
      files one after the other, up to the first network failure; what it hands over is one envelope
      for every file that is there and can be read at its turn, up to and with that failure; and a
      file that it did not come to is as it was, unless somebody else touched it or the one envelope
      whose send failed took its name. */
  lemma {:induction false} PassStopsAtFailure(s: Store, order: seq<Bytes>, turns: seq<Turn>, keep: Keep)
    returns (n: nat)
    requires Listed(order, |order|) && forall k :: 0 <= k < |turns| ==> ValidTurn(turns[k])
    ensures IsPass(s, order, turns, keep, n)
    ensures Pass(s, order, turns, keep).sent == s.sent + HandedOver(s, order, turns, keep, n)
    ensures forall name :: IsRetry(name) && Untouched(s, order, turns, keep, n, name) ==>
              SameFile(s, Pass(s, order, turns, keep), name)
  {
    hide Rounds, IsRetry, ValidTurn, NextName, Meddled;
    n := PassIsRounds(s, order, turns, keep);
    RoundsSend(s, order, turns, keep, n);
    forall name | IsRetry(name) && Untouched(s, order, turns, keep, n, name)
      ensures SameFile(s, Pass(s, order, turns, keep), name)
    {
      RoundsLeave(s, order, turns, keep, n, name);
    }
  }

  // -------------------------------------------------------------- when nobody interferes

  /** Nobody else touches the directory, and every file of the order is there and can be read. */
  predicate Undisturbed(s: Store, order: seq<Bytes>, turns: seq<Turn>) {
    && |order| <= |turns|
    && (forall k :: 0 <= k < |order| ==> IsRetry(order[k]) && order[k] in s.files)
    && (forall j, k :: 0 <= j < k < |order| ==> order[j] != order[k])
    && (forall k :: 0 <= k < |turns| ==> ValidTurn(turns[k]) && turns[k].arrivals == [] && turns[k].loads)
  }

  /** No failed send takes the name of another file of the order. */
  predicate NoClash(order: seq<Bytes>, turns: seq<Turn>)
    requires Listed(order, |order|) && |order| <= |turns|
  {
    forall j, k :: 0 <= j < k < |order| && turns[j].status < 0 ==> order[k] != NextName(order[j], turns[j])
  }

  function Envelopes(s: Store, order: seq<Bytes>): seq<nat>
    requires forall k :: 0 <= k < |order| ==> order[k] in s.files
  {
    seq(|order|, k requires 0 <= k < |order| => s.files[order[k]])
  }

  /** Every file is there at its turn, as it was. */
  lemma IsThere(s: Store, order: seq<Bytes>, turns: seq<Turn>, keep: Keep, k: nat)
    requires Undisturbed(s, order, turns) && Listed(order, |order|) && k < |order| && NoClash(order, turns)
    ensures Sends(s, order, turns, keep, k)
    ensures AtTurn(s, order, turns, keep, k).files[order[k]] == s.files[order[k]]
    ensures Fails(s, order, turns, keep, k) <==> turns[k].status < 0
  {
    hide IsRetry, ValidTurn, NextName, ArriveAll, SendOne, Untouched;
    BehindIsUntouched(s, order, turns, keep, k, k);
    RoundsLeave(s, order, turns, keep, k, order[k]);
    NothingArrives(Rounds(s, order, turns, keep, k));
  }

  lemma BehindIsUntouched(s: Store, order: seq<Bytes>, turns: seq<Turn>, keep: Keep, n: nat, k: nat)
    requires Undisturbed(s, order, turns) && Listed(order, |order|) && NoClash(order, turns) && n <= k < |order|
    ensures Untouched(s, order, turns, keep, n, order[k])
  {
    hide IsRetry, ValidTurn, NextName;
    forall j | 0 <= j < n ensures !Meddled(turns[j], order[k]) { assert turns[j].arrivals == []; }
  }

  lemma OneMoreOf(all: seq<nat>, n: nat)
    requires 0 < n <= |all|
    ensures multiset(all[..n]) == multiset(all[..n - 1]) + multiset{all[n - 1]}
  {
    assert all[..n] == all[..n - 1] + [all[n - 1]];
  }

  lemma EnvelopeAt(s: Store, order: seq<Bytes>, k: nat)
    requires (forall i :: 0 <= i < |order| ==> order[i] in s.files) && k < |order|
    ensures |Envelopes(s, order)| == |order| && Envelopes(s, order)[k] == s.files[order[k]]
  {
  }

  lemma {:induction false} AllAreSent(s: Store, order: seq<Bytes>, turns: seq<Turn>, keep: Keep, n: nat)
    requires Undisturbed(s, order, turns) && Listed(order, |order|) && n <= |order| && NoClash(order, turns)
    ensures HandedOver(s, order, turns, keep, n) == multiset(Envelopes(s, order)[..n])
  {
    hide IsRetry, ValidTurn, NextName, NoClash, Rounds, AtTurn, Sends, Fails, Envelopes;
    if n > 0 {
      AllAreSent(s, order, turns, keep, n - 1);
      IsThere(s, order, turns, keep, n - 1);
      EnvelopeAt(s, order, n - 1);
      OneMoreOf(Envelopes(s, order), n);
    }
  }

  lemma NothingArrives(s: Store)
    ensures ArriveAll(s, []) == s
  {
  }

  /** A pass in which nobody interferes hands over the files of its order, each once, up to the first
      network failure and with it, or all of them if there is none. */
  lemma {:induction false} UndisturbedPass(s: Store, order: seq<Bytes>, turns: seq<Turn>, keep: Keep, i: nat)
    requires Undisturbed(s, order, turns) && Listed(order, |order|) && NoClash(order, turns) && i <= |order|
    requires forall k :: 0 <= k < i ==> turns[k].status >= 0
    requires i < |order| ==> turns[i].status < 0
    ensures var n := if i < |order| then i + 1 else i;
            && Pass(s, order, turns, keep).sent == s.sent + multiset(Envelopes(s, order)[..n])
            && forall k :: n <= k < |order| ==> SameFile(s, Pass(s, order, turns, keep), order[k])
  {
    hide IsRetry, ValidTurn, NextName, Pass, SameFile, Fails, HandedOver, Untouched;
    var n := PassStopsAtFailure(s, order, turns, keep);
    AllAreSent(s, order, turns, keep, n);
    forall k | 0 <= k < |order| ensures Fails(s, order, turns, keep, k) <==> turns[k].status < 0 {
      IsThere(s, order, turns, keep, k);
    }
    forall k | n <= k < |order| ensures SameFile(s, Pass(s, order, turns, keep), order[k]) {
      BehindIsUntouched(s, order, turns, keep, n, k);
    }
  }
}
