/**
 What the reader makes of any text at all is a proper value: integers of the narrowest type, keys
 that are C strings and differ, and containers that nest at most 64 deep.  So printing what was
 read and reading it again changes nothing but doubles.
 */
module JsonCanonical {
  import opened Bytes
  import opened JsonString
  import opened Json
  import opened JsonReader
  import opened JsonRebuild
  import opened Jsmn
  import opened JsonRoundTrip

  // ------------------------------------------------------------------------------ values

  /** A value as the reader builds it where `room` levels are left. */
  predicate Proper(v: Value, room: int) {
    Canonical(v) && Narrow(v) && Fits(v, room)
  }

  lemma PrimitiveIsCanonical(strtod: Strtod, s: Bytes, room: int)
    requires s != []
    ensures Proper(ReadPrimitive(strtod, s), room)
  {
    hide ReadInt;
  }

  lemma {:induction false} CStringHasNoNul(s: Bytes)
    ensures NUL !in CString(s)
  {
    if s != [] && s[0] != NUL {
      CStringHasNoNul(s[1..]);
    }
  }

  predicate DifferentKeys(members: seq<Member>) {
    forall i, j :: 0 <= i < j < |members| ==> members[i].key != members[j].key
  }

  /** Members with proper values, and with keys that differ. */
  predicate ProperMembers(members: seq<Member>, room: int) {
    && (forall i :: 0 <= i < |members| ==> NUL !in members[i].key && Proper(members[i].value, room))
    && DifferentKeys(members)
  }

  /** What is in an object after a key was set: the new member, or one that was there. */
  lemma {:induction false} SetByKeyHas(members: seq<Member>, key: Bytes, value: Value, i: nat)
    requires DifferentKeys(members) && i < |SetByKey(members, key, value)|
    ensures var m := SetByKey(members, key, value)[i];
            m == Member(key, value) || (m.key != key && exists k :: 0 <= k < |members| && members[k] == m)
  {
    if members != [] && i > 0 {
      if members[0].key == key {
        assert SetByKey(members, key, value)[i] == members[i];
      } else {
        SetByKeyHas(members[1..], key, value, i - 1);
        var m := SetByKey(members, key, value)[i];
        if m != Member(key, value) {
          var k :| 0 <= k < |members[1..]| && members[1..][k] == m;
          assert members[k + 1] == m;
        }
      }
    }
  }

  lemma {:induction false} SetByKeyDiffers(members: seq<Member>, key: Bytes, value: Value)
    requires DifferentKeys(members)
    ensures DifferentKeys(SetByKey(members, key, value))
  {
    if members != [] && members[0].key != key {
      SetByKeyDiffers(members[1..], key, value);
      var r := SetByKey(members[1..], key, value);
      forall i | 0 <= i < |r| ensures r[i].key != members[0].key {
        SetByKeyHas(members[1..], key, value, i);
      }
    }
  }

  lemma SetMemberKeepsProper(members: seq<Member>, key: Bytes, value: Value, room: int)
    requires ProperMembers(members, room) && Proper(value, room)
    ensures ProperMembers(SetMember(members, key, value), room)
  {
    hide Proper, Decode, CString, SetByKey;
    match Decode(CString(key))
    case None =>
    case Some(k) =>
      CStringHasNoNul(k);
      SetByKeyDiffers(members, CString(k), value);
      var r := SetByKey(members, CString(k), value);
      forall i | 0 <= i < |r|
        ensures NUL !in r[i].key && Proper(r[i].value, room)
      {
        SetByKeyHas(members, CString(k), value, i);
      }
  }

  /** What the reader builds is proper and fits the levels that are left. */
  lemma {:induction false} ReadIsCanonical(strtod: Strtod, tokens: seq<Token>, buf: Bytes, offset: nat, depth: nat)
    requires offset <= |tokens| && AllPlaced(tokens, buf)
    ensures var r := Read(strtod, tokens, buf, offset, depth);
            r.Parsed? ==> Proper(r.value, MAX_DEPTH - depth)
    decreases |tokens| - offset, 0
  {
    hide Proper, ReadItems, ReadMembers, ReadString, ReadPrimitive;
    if offset < |tokens| {
      var root := tokens[offset];
      assert WellPlaced(root, buf);
      LeavesFit(MAX_DEPTH - depth);
      match root.kind
      case PrimitiveToken =>
        var text := buf[root.start..root.end];
        PrimitiveIsCanonical(strtod, text, MAX_DEPTH - depth);
      case StringToken => StringsAreProper(buf[root.start..root.end], MAX_DEPTH - depth);
      case ArrayToken =>
        if depth < MAX_DEPTH {
          ReadItemsIsCanonical(strtod, tokens, buf, offset + 1, depth, root.size, []);
        }
      case ObjectToken =>
        if depth < MAX_DEPTH {
          ReadMembersIsCanonical(strtod, tokens, buf, offset + 1, depth, root.size, []);
        }
      case Undefined =>
    }
  }

  lemma LeavesFit(room: int)
    ensures Proper(Null, room)
  {
  }

  lemma StringsAreProper(s: Bytes, room: int)
    ensures Proper(ReadString(s), room)
  {
    hide Decode, CString;
  }

  lemma {:induction false} ReadItemsIsCanonical(strtod: Strtod, tokens: seq<Token>, buf: Bytes, offset: nat,
      depth: nat, left: nat, items: seq<Value>)
    requires offset <= |tokens| && AllPlaced(tokens, buf) && depth < MAX_DEPTH
    requires forall i :: 0 <= i < |items| ==> Proper(items[i], MAX_DEPTH - depth - 1)
    ensures var r := ReadItems(strtod, tokens, buf, offset, depth, left, items);
            r.Parsed? ==> Proper(r.value, MAX_DEPTH - depth)
    decreases |tokens| - offset, 1
  {
    hide Proper, Read, AllPlaced;
    if left == 0 {
      ListIsProper(items, MAX_DEPTH - depth);
    } else {
      var child := Read(strtod, tokens, buf, offset, depth + 1);
      ReadIsCanonical(strtod, tokens, buf, offset, depth + 1);
      if child.Parsed? {
        ReadItemsIsCanonical(strtod, tokens, buf, child.next, depth, left - 1, items + [child.value]);
      }
    }
  }

  lemma ListIsProper(items: seq<Value>, room: nat)
    requires room > 0 && forall i :: 0 <= i < |items| ==> Proper(items[i], room - 1)
    ensures Proper(List(items), room)
  {
    ItemsFit(items, room - 1);
    hide HeightItems, Fits;
    ListFits(items, room);
  }

  lemma ListFits(items: seq<Value>, room: nat)
    requires HeightItems(items, 0) + 1 <= room
    ensures Fits(List(items), room)
  {
  }

  lemma ObjectIsProper(members: seq<Member>, room: nat)
    requires room > 0 && ProperMembers(members, room - 1)
    ensures Proper(Object(members), room)
  {
    MembersFit(members, room - 1);
    hide HeightMembers, Fits;
    ObjectFits(members, room);
  }

  lemma ObjectFits(members: seq<Member>, room: nat)
    requires HeightMembers(members, 0) + 1 <= room
    ensures Fits(Object(members), room)
  {
  }

  lemma {:induction false} ReadMembersIsCanonical(strtod: Strtod, tokens: seq<Token>, buf: Bytes, offset: nat,
      depth: nat, left: nat, members: seq<Member>)
    requires offset <= |tokens| && AllPlaced(tokens, buf) && depth < MAX_DEPTH
    requires ProperMembers(members, MAX_DEPTH - depth - 1)
    ensures var r := ReadMembers(strtod, tokens, buf, offset, depth, left, members);
            r.Parsed? ==> Proper(r.value, MAX_DEPTH - depth)
    decreases |tokens| - offset, 1
  {
    hide Proper, Read, ProperMembers, SetMember;
    if left == 0 {
      ObjectIsProper(members, MAX_DEPTH - depth);
    } else if offset < |tokens| && tokens[offset].kind == StringToken {
      var key := tokens[offset];
      assert WellPlaced(key, buf);
      var child := Read(strtod, tokens, buf, offset + 1, depth + 1);
      ReadIsCanonical(strtod, tokens, buf, offset + 1, depth + 1);
      if child.Parsed? {
        var text := buf[key.start..key.end];
        SetMemberKeepsProper(members, text, child.value, MAX_DEPTH - depth - 1);
        ReadMembersIsCanonical(strtod, tokens, buf, child.next, depth, left - 1, SetMember(members, text, child.value));
      }
    }
  }

  // --------------------------------------------------------------------------- any text

  /** Every text, whatever it is, reads as a proper value with containers at most 64 deep. */
  lemma {:induction false} FromJsonIsCanonical(strtod: Strtod, js: Bytes)
    ensures var v := FromJson(strtod, js);
            Canonical(v) && Narrow(v) && Height(v, 0) <= MAX_DEPTH
  {
    hide Canonical, Narrow, Fits, Read, Parse, Count, Height;
    LeavesFit(MAX_DEPTH);
    FitsIsHeight(Null);
    match Count(js, 0)
    case None =>
    case Some(count) =>
      var p := Parser(0, [], -1);
      var parsed := Parse(js, p, count);
      if parsed.Done? {
        ReadIsCanonical(strtod, parsed.tokens, js, 0, 0);
        var r := Read(strtod, parsed.tokens, js, 0, 0);
        if r.Parsed? {
          FitsIsHeight(r.value);
        }
      }
  }

  lemma FitsIsHeight(v: Value)
    ensures Fits(v, MAX_DEPTH) <==> Height(v, 0) <= MAX_DEPTH
  {
  }

  /** Printing what was read and reading it again gives the same value with its numbers reread, and
      so the same value exactly if its doubles survive, for every text. */
  lemma {:induction false} ReadingAgain(show: Show, strtod: Strtod, js: Bytes)
    ensures FromJson(strtod, Print(show, FromJson(strtod, js))) == Reread(show, strtod, FromJson(strtod, js))
    ensures FromJson(strtod, Print(show, FromJson(strtod, js))) == FromJson(strtod, js)
            <==> DoublesSurvive(show, strtod, FromJson(strtod, js))
  {
    hide FromJson, Print, Canonical, Narrow, Height, Reread, DoublesSurvive;
    FromJsonIsCanonical(strtod, js);
    ParsesDocument(show, strtod, FromJson(strtod, js));
    UnchangedIfNumbersSurvive(show, strtod, FromJson(strtod, js));
  }

  // --------------------------------------------------------------------------- literals

  /** The literal names of section 3 of RFC 8259 read as what they stand for. */
  lemma {:induction false} LiteralsAreRead(show: Show, strtod: Strtod)
    ensures FromJson(strtod, "null") == Null
    ensures FromJson(strtod, "true") == Bool(true)
    ensures FromJson(strtod, "false") == Bool(false)
  {
    hide FromJson;
    LiteralsAreWritten(show);
    ParsesDocument(show, strtod, Null);
    ParsesDocument(show, strtod, Bool(true));
    ParsesDocument(show, strtod, Bool(false));
    hide Print;
  }

  lemma LiteralsAreWritten(show: Show)
    ensures Print(show, Null) == "null" && Print(show, Bool(true)) == "true" && Print(show, Bool(false)) == "false"
  {
  }

  lemma TwoJoined(x: Bytes, y: Bytes)
    ensures [] + Separator(0) + x + Separator(1) + y == x + "," + y
  {
    assert [] + Separator(0) + x == x;
  }

  /** The punctuation of the standard: a list and an object with two items, whatever they are. */
  lemma {:induction false} ListIsStandard(show: Show, a: Value, b: Value)
    ensures Print(show, List([a, b])) == "[" + (Print(show, a) + "," + Print(show, b)) + "]"
  {
    hide Print, PrintItems, Separator;
    var items := [a, b];
    ListText(show, items, 0);
    NextItem(show, items, 0, 0);
    NextItem(show, items, 1, 0);
    NothingText(show, 0);
    TwoJoined(Print(show, a), Print(show, b));
    assert items[..0] == [] && items[..2] == items;
  }

  lemma MemberIsStandard(show: Show, m: Member)
    ensures PrintMember(show, m) == "\"" + Escape(m.key) + "\"" + ":" + Print(show, m.value)
  {
    hide Print, Escape;
  }

  lemma {:induction false} ObjectIsStandard(show: Show, a: Member, b: Member)
    ensures Print(show, Object([a, b])) == "{" + (PrintMember(show, a) + "," + PrintMember(show, b)) + "}"
    ensures PrintMember(show, a) == "\"" + Escape(a.key) + "\"" + ":" + Print(show, a.value)
  {
    hide Print, PrintMembers, PrintMember, Separator, Escape;
    MemberIsStandard(show, a);
    var members := [a, b];
    ObjectText(show, members, 0);
    NextMember(show, members, 0, 0);
    NextMember(show, members, 1, 0);
    NothingText(show, 0);
    TwoJoined(PrintMember(show, a), PrintMember(show, b));
    assert members[..0] == [] && members[..2] == members;
  }

  // --------------------------------------------------------------------- a double that changes

  /** A C library that prints the double read from `5.0` as `5`. */
  predicate PrintsFive(show: Show, strtod: Strtod) {
    IsFinite(strtod("5.0")) && show(strtod("5.0")) == "5"
  }

  lemma FiveIsRead(strtod: Strtod)
    ensures ReadPrimitive(strtod, "5.0") == Real(strtod("5.0")) && ReadPrimitive(strtod, "5") == Int(5, Int32)
  {
    assert !IsDigit("5.0"[1]);
    assert Decimal(5) == "5";
    IntIsRead(strtod, 5);
  }

  /** The text `5.0` reads as a double, is printed as `5` and then reads as an integer. */
  lemma FiveBecomesAnInteger(show: Show, strtod: Strtod)
    requires PrintsFive(show, strtod)
    ensures FromJson(strtod, "5.0") == Real(strtod("5.0"))
    ensures FromJson(strtod, Print(show, FromJson(strtod, "5.0"))) == Int(5, Int32)
    ensures !DoublesSurvive(show, strtod, FromJson(strtod, "5.0"))
  {
    var literal: Show := (bits: nat) => "5.0";
    assert Print(literal, Real(0)) == "5.0";
    ParsesDocument(literal, strtod, Real(0));
    FiveIsRead(strtod);
    ReadingAgain(show, strtod, "5.0");
    hide FromJson, ReadPrimitive;
  }

  // ------------------------------------------------------------- an integer that changes its type

  /** An integer comes back from its text with the narrowest type.  The signed accessors find the
      same number in it, and the unsigned one does so exactly for zero and above 2^63 - 1. */
  lemma IntegersAreNarrowed(show: Show, strtod: Strtod, n: int, width: Width)
    requires InWidth(width, n)
    ensures var v := Int(n, width);
            var back := FromJson(strtod, Print(show, v));
            && back == Int(n, Narrowest(n))
            && AsInt32(v) == (if width == Int32 then AsInt32(back) else 0)
            && AsInt64(v) == (if width == Uint64 then 0 else AsInt64(back))
            && (AsUint64(v) == AsUint64(back) <==> width != Uint64 || n == 0 || n > INT64_MAX)
  {
    ParsesDocument(show, strtod, Int(n, width));
    hide FromJson, Print;
  }

  /** The unsigned integer 5 is written as `5`, comes back as a 32-bit integer, and is zero for who
      asks for an unsigned one. */
  lemma UnsignedFiveIsNarrowed(show: Show, strtod: Strtod)
    ensures var back := FromJson(strtod, Print(show, Int(5, Uint64)));
            back == Int(5, Int32) && AsUint64(back) == 0 && !NumbersSurvive(show, strtod, Int(5, Uint64))
  {
    IntegersAreNarrowed(show, strtod, 5, Uint64);
    hide FromJson, Print;
  }
}
