/**
 Names of cached envelopes (src/sentry_database.c): `<ts>-<count>-<uuid>.envelope` for one that
 waits for a retry, `<uuid>.envelope` for one that is only kept.
 */
module CacheName {
  import opened Prelude
  import opened Bytes

  const SUFFIX: Bytes := ".envelope"

  /** What a name says.  `count` is -1 for an envelope that is only kept. */
  datatype Name = Name(ts: nat, count: int, uuid: Bytes)

  // ---------------------------------------------------------------- numbers as C reads them

  /** The length of the run of digits at the front. */
  function DigitRun(s: Bytes): (n: nat)
    ensures n <= |s| && (forall i :: 0 <= i < n ==> IsDigit(s[i])) && (n < |s| ==> !IsDigit(s[n]))
  {
    if s == [] || !IsDigit(s[0]) then 0
    else
      assert forall i :: 0 < i < |s| ==> s[i] == s[1..][i - 1];
      1 + DigitRun(s[1..])
  }

  predicate IsBlank(c: Byte) {
    c == ' ' || 9 <= c as int <= 13
  }

  function SkipBlanks(s: Bytes): Bytes {
    if s != [] && IsBlank(s[0]) then SkipBlanks(s[1..]) else s
  }

  datatype Signed = Signed(negative: bool, rest: Bytes)

  function TakeSign(s: Bytes): Signed {
    if s != [] && s[0] == '-' then Signed(true, s[1..])
    else if s != [] && s[0] == '+' then Signed(false, s[1..])
    else Signed(false, s)
  }

  /** A number at the front of `s` with its sign, and the text behind it; without a digit the
      number is 0 and nothing is consumed. */
  function TakeNumber(s: Bytes): (int, Bytes) {
    var sign := TakeSign(SkipBlanks(s));
    var n := DigitRun(sign.rest);
    if n == 0 then (0, s)
    else ((if sign.negative then 0 - Number(sign.rest[..n]) else Number(sign.rest[..n])), sign.rest[n..])
  }

  /** An unsigned 64-bit number: too large ones are cut to the largest, negative ones wrap. */
  function ClampUnsigned(n: int): (r: nat)
    ensures r <= UINT64_MAX
  {
    if n > UINT64_MAX || n < -UINT64_MAX then UINT64_MAX
    else if n >= 0 then n
    else UINT64_MAX + 1 + n
  }

  function ClampSigned(n: int): int {
    if n > INT64_MAX then INT64_MAX else if n < INT64_MIN then INT64_MIN else n
  }

  // ------------------------------------------------------------------------------- names

  /** A uuid of 36 characters and the suffix. */
  predicate IsTail(s: Bytes) {
    |s| == 45 && s[36..] == SUFFIX
  }

  function Parse(name: Bytes): (r: Option<Name>)
    ensures r.Some? ==> |r.value.uuid| == 36 && r.value.ts <= UINT64_MAX && r.value.count <= INT32_MAX
  {
    if IsTail(name) then Some(Name(0, -1, name[..36]))
    else if |name| <= 45 then None
    else
      var (ts, afterTs) := TakeNumber(name);
      if afterTs == [] || afterTs[0] != '-' then None
      else
        var (count, afterCount) := TakeNumber(afterTs[1..]);
        if afterCount == [] || afterCount[0] != '-' || ClampSigned(count) < 0 || !IsTail(afterCount[1..]) then None
        else Some(Name(ClampUnsigned(ts), ToInt32(ClampSigned(count)), afterCount[1..][..36]))
  }

  /** A count with at least two digits. */
  function TwoDigits(n: nat): Bytes {
    if n < 10 then "0" + Decimal(n) else Decimal(n)
  }

  function Make(ts: nat, count: int, uuid: Bytes): Bytes {
    var id := if |uuid| > 36 then uuid[..36] else uuid;
    if count >= 0 then Decimal(ts) + "-" + TwoDigits(count) + "-" + id + SUFFIX else id + SUFFIX
  }

  // -------------------------------------------------------------------------- round trip

  lemma {:induction false} DigitsThenDash(digits: Bytes, rest: Bytes)
    requires forall i :: 0 <= i < |digits| ==> IsDigit(digits[i])
    ensures DigitRun(digits + ("-" + rest)) == |digits|
  {
    var s := digits + ("-" + rest);
    if digits == [] {
      assert s[0] == '-';
    } else {
      assert IsDigit(digits[0]);
      assert s[1..] == digits[1..] + ("-" + rest);
      DigitsThenDash(digits[1..], rest);
    }
  }

  lemma {:induction false} StartsWithDigit(s: Bytes)
    requires s != [] && IsDigit(s[0])
    ensures TakeSign(SkipBlanks(s)) == Signed(false, s)
  {
  }

  lemma {:induction false} NumberThenDash(digits: Bytes, rest: Bytes)
    requires digits != [] && forall i :: 0 <= i < |digits| ==> IsDigit(digits[i])
    ensures TakeNumber(digits + ("-" + rest)) == (Number(digits), "-" + rest)
  {
    hide Number, DigitRun, SkipBlanks, TakeSign;
    var s := digits + ("-" + rest);
    assert IsDigit(digits[0]) && s[0] == digits[0];
    StartsWithDigit(s);
    DigitsThenDash(digits, rest);
    assert s[..|digits|] == digits && s[|digits|..] == "-" + rest;
  }

  lemma TwoDigitsAreRead(n: nat)
    ensures TwoDigits(n) != [] && forall i :: 0 <= i < |TwoDigits(n)| ==> IsDigit(TwoDigits(n)[i])
    ensures Number(TwoDigits(n)) == n
  {
    DecimalIsRead(n);
    if n < 10 {
      var d := Decimal(n);
      assert |d| == 1 && ("0" + d)[..1] == "0";
      assert "0"[..0] == [];
    }
  }

  lemma ParseRetryName(d: Bytes, c: Bytes, tail: Bytes)
    requires AllDigits(d) && AllDigits(c) && IsTail(tail)
    ensures Parse(d + ("-" + (c + ("-" + tail))))
         == Some(Name(ClampUnsigned(Number(d)), ToInt32(ClampSigned(Number(c))), tail[..36]))
  {
    hide TakeNumber, Number, ClampUnsigned, ToInt32, IsTail;
    var afterTs := c + ("-" + tail);
    var name := d + ("-" + afterTs);
    TailIsShort(name);
    TailIsShort(tail);
    NumberThenDash(d, afterTs);
    assert ("-" + afterTs)[1..] == afterTs;
    NumberThenDash(c, tail);
    assert ("-" + tail)[1..] == tail;
  }

  lemma TailIsShort(s: Bytes)
    ensures IsTail(s) ==> |s| == 45
  {
  }

  lemma MakeRetryName(ts: nat, count: nat, uuid: Bytes)
    requires |uuid| == 36
    ensures Make(ts, count, uuid) == Decimal(ts) + ("-" + (TwoDigits(count) + ("-" + (uuid + SUFFIX))))
  {
    hide Decimal, TwoDigits;
  }

  /** A name that was made is parsed back into its parts, for every 64-bit timestamp, every count
      and every id of 36 characters; a kept envelope is told apart by the count -1. */
  lemma NameRoundTrip(ts: nat, count: int, uuid: Bytes)
    requires ts <= UINT64_MAX && count <= INT32_MAX && |uuid| == 36
    ensures Parse(Make(ts, count, uuid)) == Some(if count >= 0 then Name(ts, count, uuid) else Name(0, -1, uuid))
  {
    hide Decimal, TwoDigits, TakeNumber, Number;
    var tail := uuid + SUFFIX;
    assert tail[36..] == SUFFIX && tail[..36] == uuid;
    if count >= 0 {
      DecimalIsRead(ts);
      TwoDigitsAreRead(count);
      MakeRetryName(ts, count, uuid);
      ParseRetryName(Decimal(ts), TwoDigits(count), tail);
    }
  }

  /** `t` is the end of `s`. */
  predicate EndsWith(s: Bytes, t: Bytes) {
    |t| <= |s| && s[|s| - |t|..] == t
  }

  lemma EndsTransitive(s: Bytes, t: Bytes, u: Bytes)
    requires EndsWith(s, t) && EndsWith(t, u)
    ensures EndsWith(s, u)
  {
  }

  lemma EndsWithRest(s: Bytes, n: nat)
    requires n <= |s|
    ensures EndsWith(s, s[n..])
  {
  }

  /** Every name that parses ends with its id and the suffix. */
  lemma ParsedEndsWithId(name: Bytes)
    requires Parse(name).Some?
    ensures EndsWith(name, Parse(name).value.uuid + SUFFIX)
  {
    hide Number, ClampUnsigned, ToInt32, TakeNumber, EndsWith;
    EndsWithRest(name, 0);
    TailIsIdAndSuffix(name);
    if !IsTail(name) {
      var afterTs := TakeNumber(name).1;
      var afterCount := TakeNumber(afterTs[1..]).1;
      NumberLeavesEnd(name);
      EndsWithRest(afterTs, 1);
      EndsTransitive(name, afterTs, afterTs[1..]);
      NumberLeavesEnd(afterTs[1..]);
      EndsTransitive(name, afterTs[1..], afterCount);
      EndsWithRest(afterCount, 1);
      EndsTransitive(name, afterCount, afterCount[1..]);
      TailIsIdAndSuffix(afterCount[1..]);
    }
  }

  lemma TailIsIdAndSuffix(s: Bytes)
    ensures IsTail(s) ==> s[0..] == s == s[..36] + SUFFIX
  {
    if IsTail(s) {
      assert s == s[..36] + s[36..];
    }
  }

  /** What is left behind a number is the end of the text. */
  lemma NumberLeavesEnd(s: Bytes)
    ensures EndsWith(s, TakeNumber(s).1)
  {
    hide Number, SkipBlanks, DigitRun, EndsWith;
    var rest := SkipBlanks(s);
    var sign := TakeSign(rest);
    EndsWithRest(s, 0);
    assert s[0..] == s;
    BlanksLeaveEnd(s);
    EndsWithRest(rest, |rest| - |sign.rest|);
    EndsTransitive(s, rest, sign.rest);
    EndsWithRest(sign.rest, DigitRun(sign.rest));
    EndsTransitive(s, sign.rest, sign.rest[DigitRun(sign.rest)..]);
  }

  lemma {:induction false} BlanksLeaveEnd(s: Bytes)
    ensures EndsWith(s, SkipBlanks(s))
  {
    if s != [] && IsBlank(s[0]) {
      BlanksLeaveEnd(s[1..]);
      EndsTransitive(s, s[1..], SkipBlanks(s));
    }
  }
}
