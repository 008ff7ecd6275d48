/**
 The reader rebuilds every value from the tokens of its text, and refuses exactly the values
 that nest deeper than its limit.
 */
module JsonRebuild {
  import opened Prelude
  import opened Bytes
  import opened JsonString
  import opened Json
  import opened JsonReader

  // ------------------------------------------------------------------------ values

  /** Bytes that may stand in an unquoted value. */
  predicate PlainByte(c: Byte) {
    32 < c as int < 127 && c != ':' && c != ',' && c != ']' && c != '}'
  }

  /** What holds of the values of the SDK: an integer is one of its type, keys are C strings, and no
      two keys of an object are the same.  A key that is given with its length may hold a zero byte,
      which the C string ends at; such keys are not modelled. */
  predicate Canonical(v: Value) {
    match v
    case Int(n, width) => InWidth(width, n)
    case List(items) => forall i :: 0 <= i < |items| ==> Canonical(items[i])
    case Object(members) =>
      && (forall i :: 0 <= i < |members| ==> NUL !in members[i].key && Canonical(members[i].value))
      && (forall i, j :: 0 <= i < j < |members| ==> members[i].key != members[j].key)
    case _ => true
  }

  // ------------------------------------------------------------------------ numbers

  /** The value as it comes back from its text: integers have the narrowest type, and doubles are
      what the reader makes of their text, which may be an integer, null or another double;
      everything else is the same. */
  function Reread(show: Show, strtod: Strtod, v: Value): Value {
    match v
    case Int(n, _) => Int(n, Narrowest(n))
    case Real(bits) => ReadPrimitive(strtod, PrintReal(show, bits))
    case List(items) => List(RereadItems(show, strtod, items))
    case Object(members) => Object(RereadMembers(show, strtod, members))
    case _ => v
  }

  function RereadItems(show: Show, strtod: Strtod, items: seq<Value>): seq<Value> {
    if items == [] then []
    else RereadItems(show, strtod, items[..|items| - 1]) + [Reread(show, strtod, items[|items| - 1])]
  }

  function RereadMembers(show: Show, strtod: Strtod, members: seq<Member>): seq<Member> {
    if members == [] then []
    else
      var last := members[|members| - 1];
      RereadMembers(show, strtod, members[..|members| - 1]) + [Member(last.key, Reread(show, strtod, last.value))]
  }

  /** A double is finite, its text is short enough and no integer, and it is read as the same double. */
  predicate DoubleSurvives(show: Show, strtod: Strtod, bits: nat) {
    IsFinite(bits) && |show(bits)| < 24 && ReadInt(show(bits)).None? && strtod(show(bits)) == bits
  }

  predicate DoublesSurvive(show: Show, strtod: Strtod, v: Value) {
    match v
    case Real(bits) => DoubleSurvives(show, strtod, bits)
    case List(items) => forall i :: 0 <= i < |items| ==> DoublesSurvive(show, strtod, items[i])
    case Object(members) => forall i :: 0 <= i < |members| ==> DoublesSurvive(show, strtod, members[i].value)
    case _ => true
  }

  /** Every integer has the narrowest type that holds it. */
  predicate Narrow(v: Value) {
    match v
    case Int(n, width) => width == Narrowest(n)
    case List(items) => forall i :: 0 <= i < |items| ==> Narrow(items[i])
    case Object(members) => forall i :: 0 <= i < |members| ==> Narrow(members[i].value)
    case _ => true
  }

  predicate NumbersSurvive(show: Show, strtod: Strtod, v: Value) {
    Narrow(v) && DoublesSurvive(show, strtod, v)
  }

  lemma {:induction false} RereadItemsAt(show: Show, strtod: Strtod, items: seq<Value>, i: nat)
    requires i < |items|
    ensures |RereadItems(show, strtod, items)| == |items|
            && RereadItems(show, strtod, items)[i] == Reread(show, strtod, items[i])
  {
    hide Reread;
    var k := |items| - 1;
    if k > 0 {
      RereadItemsAt(show, strtod, items[..k], if i < k then i else 0);
    }
  }

  lemma {:induction false} RereadMembersAt(show: Show, strtod: Strtod, members: seq<Member>, i: nat)
    requires i < |members|
    ensures |RereadMembers(show, strtod, members)| == |members|
    ensures RereadMembers(show, strtod, members)[i] == Member(members[i].key, Reread(show, strtod, members[i].value))
  {
    hide Reread;
    var k := |members| - 1;
    if k > 0 {
      RereadMembersAt(show, strtod, members[..k], if i < k then i else 0);
    }
  }

  lemma {:induction false} RereadNextItem(show: Show, strtod: Strtod, items: seq<Value>, i: nat)
    requires i < |items|
    ensures RereadItems(show, strtod, items[..i + 1])
            == RereadItems(show, strtod, items[..i]) + [Reread(show, strtod, items[i])]
  {
    hide Reread;
    assert items[..i + 1][..i] == items[..i];
  }

  lemma {:induction false} RereadNextMember(show: Show, strtod: Strtod, members: seq<Member>, i: nat)
    requires i < |members|
    ensures RereadMembers(show, strtod, members[..i + 1])
         == RereadMembers(show, strtod, members[..i]) + [Member(members[i].key, Reread(show, strtod, members[i].value))]
  {
    hide Reread;
    assert members[..i + 1][..i] == members[..i];
  }

  /** A value comes back unchanged exactly if all its integers have the narrowest type and all its
      doubles survive. */
  lemma {:induction false} UnchangedIfNumbersSurvive(show: Show, strtod: Strtod, v: Value)
    ensures Reread(show, strtod, v) == v <==> NumbersSurvive(show, strtod, v)
    decreases v
  {
    match v
    case List(items) => UnchangedItems(show, strtod, items);
    case Object(members) => UnchangedMembers(show, strtod, members);
    case _ =>
  }

  lemma {:induction false} UnchangedItems(show: Show, strtod: Strtod, items: seq<Value>)
    ensures RereadItems(show, strtod, items) == items
            <==> forall i :: 0 <= i < |items| ==> NumbersSurvive(show, strtod, items[i])
    decreases items, 1
  {
    hide Reread, NumbersSurvive;
    forall i | 0 <= i < |items|
      ensures |RereadItems(show, strtod, items)| == |items|
              && (RereadItems(show, strtod, items)[i] == items[i] <==> NumbersSurvive(show, strtod, items[i]))
    {
      RereadItemsAt(show, strtod, items, i);
      UnchangedIfNumbersSurvive(show, strtod, items[i]);
    }
  }

  lemma {:induction false} UnchangedMembers(show: Show, strtod: Strtod, members: seq<Member>)
    ensures RereadMembers(show, strtod, members) == members
            <==> forall i :: 0 <= i < |members| ==> NumbersSurvive(show, strtod, members[i].value)
    decreases members, 1
  {
    hide Reread, NumbersSurvive;
    forall i | 0 <= i < |members|
      ensures |RereadMembers(show, strtod, members)| == |members|
      ensures RereadMembers(show, strtod, members)[i] == members[i] <==> NumbersSurvive(show, strtod, members[i].value)
    {
      RereadMembersAt(show, strtod, members, i);
      UnchangedIfNumbersSurvive(show, strtod, members[i].value);
    }
  }

  /** Coming back from text changes no level. */
  lemma {:induction false} RereadKeepsHeight(show: Show, strtod: Strtod, v: Value, leaf: nat)
    ensures Height(Reread(show, strtod, v), leaf) == Height(v, leaf)
    decreases v
  {
    match v
    case List(items) => RereadItemsKeepHeight(show, strtod, items, |items|, leaf); assert items[..|items|] == items;
    case Object(members) =>
      RereadMembersKeepHeight(show, strtod, members, |members|, leaf);
      assert members[..|members|] == members;
    case _ =>
  }

  lemma {:induction false} RereadItemsKeepHeight(show: Show, strtod: Strtod, items: seq<Value>, n: nat, leaf: nat)
    requires n <= |items|
    ensures HeightItems(RereadItems(show, strtod, items[..n]), leaf) == HeightItems(items[..n], leaf)
    decreases items, n
  {
    hide Reread, Height;
    if n > 0 {
      RereadItemsKeepHeight(show, strtod, items, n - 1, leaf);
      RereadKeepsHeight(show, strtod, items[n - 1], leaf);
      var r := RereadItems(show, strtod, items[..n]);
      RereadNextItem(show, strtod, items, n - 1);
      assert items[..n][..n - 1] == items[..n - 1];
      assert r[..|r| - 1] == RereadItems(show, strtod, items[..n - 1]);
    }
  }

  lemma {:induction false} RereadMembersKeepHeight(show: Show, strtod: Strtod, members: seq<Member>, n: nat, leaf: nat)
    requires n <= |members|
    ensures HeightMembers(RereadMembers(show, strtod, members[..n]), leaf) == HeightMembers(members[..n], leaf)
    decreases members, n
  {
    hide Reread, Height;
    if n > 0 {
      RereadMembersKeepHeight(show, strtod, members, n - 1, leaf);
      RereadKeepsHeight(show, strtod, members[n - 1].value, leaf);
      var r := RereadMembers(show, strtod, members[..n]);
      RereadNextMember(show, strtod, members, n - 1);
      assert members[..n][..n - 1] == members[..n - 1];
      assert r[..|r| - 1] == RereadMembers(show, strtod, members[..n - 1]);
    }
  }

  // --------------------------------------------------------------------------- levels

  /** The containers of `v` fit in `room` levels. */
  predicate Fits(v: Value, room: int) {
    Height(v, 0) == 0 || Height(v, 0) <= room
  }

  lemma {:induction false} ItemsFit(items: seq<Value>, room: nat)
    ensures HeightItems(items, 0) <= room <==> forall i :: 0 <= i < |items| ==> Fits(items[i], room)
  {
    if items != [] {
      var k := |items| - 1;
      ItemsFit(items[..k], room);
      assert forall i :: 0 <= i < k ==> items[..k][i] == items[i];
      assert Fits(items[k], room) <==> Height(items[k], 0) <= room;
    }
  }

  lemma {:induction false} MembersFit(members: seq<Member>, room: nat)
    ensures HeightMembers(members, 0) <= room <==> forall i :: 0 <= i < |members| ==> Fits(members[i].value, room)
  {
    if members != [] {
      var k := |members| - 1;
      MembersFit(members[..k], room);
      assert forall i :: 0 <= i < k ==> members[..k][i] == members[i];
      assert Fits(members[k].value, room) <==> Height(members[k].value, 0) <= room;
    }
  }

  // ------------------------------------------------------------------ where text is

  /** `text` stands at position `pos` of `buf`. */
  predicate At(buf: Bytes, pos: nat, text: Bytes) {
    pos + |text| <= |buf| && buf[pos..pos + |text|] == text
  }

  lemma AtAppend(buf: Bytes, pos: nat, a: Bytes, b: Bytes)
    ensures At(buf, pos, a + b) <==> At(buf, pos, a) && At(buf, pos + |a|, b)
  {
    if pos + |a| + |b| <= |buf| {
      var mid, end := pos + |a|, pos + |a| + |b|;
      assert buf[pos..end] == buf[pos..mid] + buf[mid..end];
      assert (a + b)[..|a|] == a && (a + b)[|a|..] == b;
    }
  }

  /** The tokens `part` stand at `offset` among `tokens`. */
  predicate Has(tokens: seq<Token>, offset: nat, part: seq<Token>) {
    offset + |part| <= |tokens| && tokens[offset..offset + |part|] == part
  }

  lemma HasAppend(tokens: seq<Token>, offset: nat, a: seq<Token>, b: seq<Token>)
    ensures Has(tokens, offset, a + b) <==> Has(tokens, offset, a) && Has(tokens, offset + |a|, b)
  {
    if offset + |a| + |b| <= |tokens| {
      var mid, end := offset + |a|, offset + |a| + |b|;
      assert tokens[offset..end] == tokens[offset..mid] + tokens[mid..end];
      assert (a + b)[..|a|] == a && (a + b)[|a|..] == b;
    }
  }

  /** The place of item `i` in the text of a list, and of member `i` in that of an object. */
  function ItemPos(show: Show, items: seq<Value>, i: nat, pos: nat): nat
    requires i <= |items|
  {
    pos + |PrintItems(show, items[..i])| + |Separator(i)|
  }

  function MemberPos(show: Show, members: seq<Member>, i: nat, pos: nat): nat
    requires i <= |members|
  {
    pos + |PrintMembers(show, members[..i])| + |Separator(i)|
  }

  lemma {:induction false} ListText(show: Show, items: seq<Value>, pos: nat)
    ensures Print(show, List(items)) == "[" + PrintItems(show, items) + "]"
    ensures TokensOf(show, List(items), pos)
         == [Token(ArrayToken, pos, pos + |Print(show, List(items))|, |items|)] + TokensOfItems(show, items, pos + 1)
  {
    hide PrintItems, TokensOfItems;
  }

  lemma {:induction false} ObjectText(show: Show, members: seq<Member>, pos: nat)
    ensures Print(show, Object(members)) == "{" + PrintMembers(show, members) + "}"
    ensures TokensOf(show, Object(members), pos)
         == [Token(ObjectToken, pos, pos + |Print(show, Object(members))|, |members|)]
             + TokensOfMembers(show, members, pos + 1)
  {
    hide PrintMembers, TokensOfMembers;
  }

  lemma NothingText(show: Show, pos: nat)
    ensures PrintItems(show, []) == [] && TokensOfItems(show, [], pos) == []
    ensures PrintMembers(show, []) == [] && TokensOfMembers(show, [], pos) == []
  {
  }

  lemma {:induction false} NextItem(show: Show, items: seq<Value>, i: nat, pos: nat)
    requires i < |items|
    ensures PrintItems(show, items[..i + 1]) == PrintItems(show, items[..i]) + Separator(i) + Print(show, items[i])
    ensures TokensOfItems(show, items[..i + 1], pos)
         == TokensOfItems(show, items[..i], pos) + TokensOf(show, items[i], ItemPos(show, items, i, pos))
  {
    hide Print, TokensOf;
    assert items[..i + 1][..i] == items[..i];
  }

  lemma {:induction false} NextMember(show: Show, members: seq<Member>, i: nat, pos: nat)
    requires i < |members|
    ensures PrintMembers(show, members[..i + 1]) == PrintMembers(show, members[..i]) + Separator(i)
            + PrintMember(show, members[i])
    ensures TokensOfMembers(show, members[..i + 1], pos)
         == TokensOfMembers(show, members[..i], pos)
             + TokensOfMember(show, members[i], MemberPos(show, members, i, pos))
  {
    hide PrintMember, TokensOfMember;
    assert members[..i + 1][..i] == members[..i];
  }

  lemma {:induction false} ItemIsThere(show: Show, items: seq<Value>, i: nat, n: nat, buf: Bytes, pos: nat,
                                       tokens: seq<Token>, offset: nat)
    requires i < n <= |items|
    requires At(buf, pos, PrintItems(show, items[..n])) && Has(tokens, offset, TokensOfItems(show, items[..n], pos))
    ensures At(buf, ItemPos(show, items, i, pos), Print(show, items[i]))
    ensures At(buf, pos + |PrintItems(show, items[..i])|, Separator(i))
    ensures Has(tokens, offset + |TokensOfItems(show, items[..i], pos)|,
            TokensOf(show, items[i], ItemPos(show, items, i, pos)))
    decreases n
  {
    hide Print, PrintItems, TokensOf, TokensOfItems, At, Has, Separator;
    var k := n - 1;
    NextItem(show, items, k, pos);
    AtAppend(buf, pos, PrintItems(show, items[..k]) + Separator(k), Print(show, items[k]));
    AtAppend(buf, pos, PrintItems(show, items[..k]), Separator(k));
    HasAppend(tokens, offset, TokensOfItems(show, items[..k], pos),
        TokensOf(show, items[k], ItemPos(show, items, k, pos)));
    if i < k {
      ItemIsThere(show, items, i, k, buf, pos, tokens, offset);
    }
  }

  lemma {:induction false} MemberIsThere(show: Show, members: seq<Member>, i: nat, n: nat, buf: Bytes, pos: nat,
                                         tokens: seq<Token>, offset: nat)
    requires i < n <= |members|
    requires At(buf, pos, PrintMembers(show, members[..n]))
             && Has(tokens, offset, TokensOfMembers(show, members[..n], pos))
    ensures At(buf, MemberPos(show, members, i, pos), PrintMember(show, members[i]))
    ensures At(buf, pos + |PrintMembers(show, members[..i])|, Separator(i))
    ensures Has(tokens, offset + |TokensOfMembers(show, members[..i], pos)|,
                TokensOfMember(show, members[i], MemberPos(show, members, i, pos)))
    decreases n
  {
    hide PrintMember, PrintMembers, TokensOfMember, TokensOfMembers, At, Has, Separator;
    var k := n - 1;
    NextMember(show, members, k, pos);
    AtAppend(buf, pos, PrintMembers(show, members[..k]) + Separator(k), PrintMember(show, members[k]));
    AtAppend(buf, pos, PrintMembers(show, members[..k]), Separator(k));
    HasAppend(tokens, offset, TokensOfMembers(show, members[..k], pos),
              TokensOfMember(show, members[k], MemberPos(show, members, k, pos)));
    if i < k {
      MemberIsThere(show, members, i, k, buf, pos, tokens, offset);
    }
  }

  // ------------------------------------------------------------------ single tokens

  lemma {:induction false} CStringKeeps(s: Bytes)
    requires NUL !in s
    ensures CString(s) == s
  {
    if s != [] {
      assert s == [s[0]] + s[1..];
      CStringKeeps(s[1..]);
    }
  }

  lemma EscapedIsRead(s: Bytes)
    ensures Decode(CString(Escape(s))) == Some(s)
  {
    forall i | 0 <= i < |Escape(s)| ensures Escape(s)[i] != NUL { EscapedIsPrintable(s, i); }
    CStringKeeps(Escape(s));
    EscapeRoundTrip(s);
  }

  lemma IntIsRead(strtod: Strtod, n: int)
    requires INT64_MIN <= n <= UINT64_MAX
    ensures ReadPrimitive(strtod, PrintInt(n)) == Int(n, Narrowest(n))
  {
    hide Decimal, Number;
    var abs := if n < 0 then -n else n;
    var d := Decimal(abs);
    DecimalIsRead(abs);
    assert AllDigits(d);
    if n < 0 {
      assert PrintInt(n)[1..] == d;
    } else {
      assert IsDigit(d[0]);
    }
  }

  lemma PrimitiveIsRead(show: Show, strtod: Strtod, v: Value)
    requires Canonical(v) && (v.Null? || v.Bool? || v.Int? || v.Real?) && Print(show, v) != []
    ensures ReadPrimitive(strtod, Print(show, v)) == Reread(show, strtod, v)
  {
    if v.Int? {
      IntIsRead(strtod, v.n);
    }
  }

  lemma PrimitiveIsNotEmpty(show: Show, v: Value)
    requires v.Null? || v.Bool? || v.Int? || v.Real?
    ensures Print(show, v) != []
  {
  }

  /** The text between the quotes. */
  lemma QuotedPart(buf: Bytes, pos: nat, s: Bytes)
    requires At(buf, pos, Quote(s))
    ensures buf[pos + 1..pos + |Quote(s)| - 1] == Escape(s)
  {
    AtAppend(buf, pos, "\"" + Escape(s), "\"");
    AtAppend(buf, pos, "\"", Escape(s));
  }

  lemma {:induction false} NewKeyIsAppended(members: seq<Member>, key: Bytes, value: Value)
    requires forall i :: 0 <= i < |members| ==> members[i].key != key
    ensures SetByKey(members, key, value) == members + [Member(key, value)]
  {
    if members != [] {
      NewKeyIsAppended(members[1..], key, value);
      assert members + [Member(key, value)] == [members[0]] + (members[1..] + [Member(key, value)]);
    }
  }

  lemma {:induction false} MemberIsSet(members: seq<Member>, m: Member)
    requires NUL !in m.key && forall i :: 0 <= i < |members| ==> members[i].key != m.key
    ensures SetMember(members, Escape(m.key), m.value) == members + [m]
  {
    EscapedIsRead(m.key);
    CStringKeeps(m.key);
    NewKeyIsAppended(members, m.key, m.value);
  }

  // ------------------------------------------------------------------------ trees

  /** The text of `v` is at `pos` and its tokens are at `offset`. */
  predicate Ready(show: Show, v: Value, tokens: seq<Token>, buf: Bytes, offset: nat, pos: nat) {
    At(buf, pos, Print(show, v)) && Has(tokens, offset, TokensOf(show, v, pos)) && AllPlaced(tokens, buf)
  }

  /** What the reader makes of a value for which `room` levels are left. */
  function Outcome(show: Show, strtod: Strtod, v: Value, room: int, next: nat): Parsed {
    if Fits(v, room) then Parsed(Reread(show, strtod, v), next) else Failed
  }

  lemma {:induction false} LeafIsRead(show: Show, strtod: Strtod, v: Value, tokens: seq<Token>, buf: Bytes,
      offset: nat, pos: nat, depth: nat)
    requires Canonical(v) && !v.List? && !v.Object? && Ready(show, v, tokens, buf, offset, pos)
    ensures |TokensOf(show, v, pos)| == 1 && offset < |tokens|
    ensures Read(strtod, tokens, buf, offset, depth) == Parsed(Reread(show, strtod, v), offset + 1)
  {
    hide Print, TokensOf, Read, Ready, Canonical;
    if v.Str? {
      StringIsRead(show, strtod, v.s, tokens, buf, offset, pos, depth);
    } else {
      PrimitiveIsNotEmpty(show, v);
      PrimitiveIsRead(show, strtod, v);
      PlainIsRead(show, strtod, v, tokens, buf, offset, pos, depth);
    }
  }

  lemma {:induction false} StringIsRead(show: Show, strtod: Strtod, s: Bytes, tokens: seq<Token>, buf: Bytes,
      offset: nat, pos: nat, depth: nat)
    requires Ready(show, Str(s), tokens, buf, offset, pos)
    ensures |TokensOf(show, Str(s), pos)| == 1 && offset < |tokens|
    ensures Read(strtod, tokens, buf, offset, depth) == Parsed(Str(s), offset + 1)
  {
    hide Decode, Escape, CString, At;
    QuotedPart(buf, pos, s);
    EscapedIsRead(s);
    assert tokens[offset] == TokensOf(show, Str(s), pos)[0];
  }

  lemma {:induction false} PlainIsRead(show: Show, strtod: Strtod, v: Value, tokens: seq<Token>, buf: Bytes,
      offset: nat, pos: nat, depth: nat)
    requires v.Null? || v.Bool? || v.Int? || v.Real?
    requires Ready(show, v, tokens, buf, offset, pos) && Print(show, v) != []
             && ReadPrimitive(strtod, Print(show, v)) == Reread(show, strtod, v)
    ensures |TokensOf(show, v, pos)| == 1 && offset < |tokens|
    ensures Read(strtod, tokens, buf, offset, depth) == Parsed(Reread(show, strtod, v), offset + 1)
  {
    hide Print, ReadPrimitive, Reread;
    assert tokens[offset] == TokensOf(show, v, pos)[0];
  }

  lemma {:induction false} ListIsThere(show: Show, items: seq<Value>, tokens: seq<Token>, buf: Bytes, offset: nat,
      pos: nat)
    requires Ready(show, List(items), tokens, buf, offset, pos)
    ensures offset < |tokens| && tokens[offset].kind == ArrayToken && tokens[offset].size == |items|
    ensures At(buf, pos + 1, PrintItems(show, items)) && Has(tokens, offset + 1, TokensOfItems(show, items, pos + 1))
    ensures |TokensOf(show, List(items), pos)| == 1 + |TokensOfItems(show, items, pos + 1)|
  {
    hide Print, TokensOf, PrintItems, TokensOfItems, AllPlaced;
    ListText(show, items, pos);
    assert tokens[offset] == TokensOf(show, List(items), pos)[0];
    AtAppend(buf, pos, "[" + PrintItems(show, items), "]");
    AtAppend(buf, pos, "[", PrintItems(show, items));
    HasAppend(tokens, offset, [tokens[offset]], TokensOfItems(show, items, pos + 1));
  }

  lemma {:induction false} ObjectIsThere(show: Show, members: seq<Member>, tokens: seq<Token>, buf: Bytes,
      offset: nat, pos: nat)
    requires Ready(show, Object(members), tokens, buf, offset, pos)
    ensures offset < |tokens| && tokens[offset].kind == ObjectToken && tokens[offset].size == |members|
    ensures At(buf, pos + 1, PrintMembers(show, members))
            && Has(tokens, offset + 1, TokensOfMembers(show, members, pos + 1))
    ensures |TokensOf(show, Object(members), pos)| == 1 + |TokensOfMembers(show, members, pos + 1)|
  {
    hide Print, TokensOf, PrintMembers, TokensOfMembers, AllPlaced;
    ObjectText(show, members, pos);
    assert tokens[offset] == TokensOf(show, Object(members), pos)[0];
    AtAppend(buf, pos, "{" + PrintMembers(show, members), "}");
    AtAppend(buf, pos, "{", PrintMembers(show, members));
    HasAppend(tokens, offset, [tokens[offset]], TokensOfMembers(show, members, pos + 1));
  }

  /** The reader at the tokens of a value: it gives back the value, with its numbers reread, and
      moves behind its last token, exactly if the containers of the value fit the levels that are left. */
  lemma {:induction false} ReadsTree(show: Show, strtod: Strtod, v: Value, tokens: seq<Token>, buf: Bytes,
      offset: nat, pos: nat, depth: nat)
    requires Canonical(v) && Ready(show, v, tokens, buf, offset, pos)
    ensures offset + |TokensOf(show, v, pos)| <= |tokens|
    ensures Read(strtod, tokens, buf, offset, depth)
            == Outcome(show, strtod, v, MAX_DEPTH - depth, offset + |TokensOf(show, v, pos)|)
    decreases v
  {
    hide Ready, Canonical, TokensOf, Read, Outcome;
    match v
    case List(items) => ReadsList(show, strtod, items, tokens, buf, offset, pos, depth);
    case Object(members) => ReadsObject(show, strtod, members, tokens, buf, offset, pos, depth);
    case _ =>
      LeafIsRead(show, strtod, v, tokens, buf, offset, pos, depth);
      LeafOutcome(show, strtod, v, MAX_DEPTH - depth, offset + 1);
  }

  lemma LeafOutcome(show: Show, strtod: Strtod, v: Value, room: int, next: nat)
    requires !v.List? && !v.Object?
    ensures Outcome(show, strtod, v, room, next) == Parsed(Reread(show, strtod, v), next)
  {
  }

  lemma {:induction false} ReadsList(show: Show, strtod: Strtod, items: seq<Value>, tokens: seq<Token>, buf: Bytes,
      offset: nat, pos: nat, depth: nat)
    requires Canonical(List(items)) && Ready(show, List(items), tokens, buf, offset, pos)
    ensures offset + |TokensOf(show, List(items), pos)| <= |tokens|
    ensures Read(strtod, tokens, buf, offset, depth)
            == Outcome(show, strtod, List(items), MAX_DEPTH - depth, offset + |TokensOf(show, List(items), pos)|)
    decreases items, |items| + 1
  {
    hide At, AllPlaced, Print, TokensOf, PrintItems, TokensOfItems, Reread, RereadItems, ReadItems;
    RereadContainer(show, strtod, List(items));
    ListIsThere(show, items, tokens, buf, offset, pos);
    if depth < MAX_DEPTH {
      ItemsFit(items, MAX_DEPTH - depth - 1);
      assert items[..0] == [];
      NothingText(show, pos + 1);
      ReadsItems(show, strtod, items, 0, tokens, buf, offset + 1, pos + 1, depth);
    }
  }

  lemma {:induction false} ReadsObject(show: Show, strtod: Strtod, members: seq<Member>, tokens: seq<Token>, buf: Bytes,
      offset: nat, pos: nat, depth: nat)
    requires Canonical(Object(members)) && Ready(show, Object(members), tokens, buf, offset, pos)
    ensures offset + |TokensOf(show, Object(members), pos)| <= |tokens|
    ensures Read(strtod, tokens, buf, offset, depth)
            == Outcome(show, strtod, Object(members), MAX_DEPTH - depth,
                       offset + |TokensOf(show, Object(members), pos)|)
    decreases members, |members| + 1
  {
    hide At, AllPlaced, Print, TokensOf, PrintMembers, TokensOfMembers, Reread, RereadMembers, ReadMembers;
    RereadContainer(show, strtod, Object(members));
    ObjectIsThere(show, members, tokens, buf, offset, pos);
    if depth < MAX_DEPTH {
      MembersFit(members, MAX_DEPTH - depth - 1);
      assert members[..0] == [];
      NothingText(show, pos + 1);
      ReadsMembers(show, strtod, members, 0, tokens, buf, offset + 1, pos + 1, depth);
    }
  }

  lemma RereadContainer(show: Show, strtod: Strtod, v: Value)
    ensures v.List? ==> Reread(show, strtod, v) == List(RereadItems(show, strtod, v.items))
    ensures v.Object? ==> Reread(show, strtod, v) == Object(RereadMembers(show, strtod, v.members))
    ensures RereadItems(show, strtod, []) == [] && RereadMembers(show, strtod, []) == []
  {
  }

  lemma {:induction false} ReadsItems(show: Show, strtod: Strtod, items: seq<Value>, i: nat, tokens: seq<Token>,
      buf: Bytes, offset: nat, pos: nat, depth: nat)
    requires i <= |items| && depth < MAX_DEPTH && AllPlaced(tokens, buf)
    requires forall k :: 0 <= k < |items| ==> Canonical(items[k])
    requires At(buf, pos, PrintItems(show, items)) && Has(tokens, offset, TokensOfItems(show, items, pos))
    requires offset + |TokensOfItems(show, items[..i], pos)| <= |tokens|
    ensures ReadItems(strtod, tokens, buf, offset + |TokensOfItems(show, items[..i], pos)|, depth, |items| - i,
                      RereadItems(show, strtod, items[..i])) ==
            if forall k :: i <= k < |items| ==> Fits(items[k], MAX_DEPTH - depth - 1)
            then Parsed(List(RereadItems(show, strtod, items)), offset + |TokensOfItems(show, items, pos)|)
            else Failed
    decreases items, |items| - i
  {
    hide At, Has, AllPlaced, Print, TokensOf, PrintItems, TokensOfItems, Read, Canonical, Fits, Reread, RereadItems;
    assert items[..|items|] == items;
    if i < |items| {
      ItemIsThere(show, items, i, |items|, buf, pos, tokens, offset);
      NextItem(show, items, i, pos);
      ReadsTree(show, strtod, items[i], tokens, buf, offset + |TokensOfItems(show, items[..i], pos)|,
                ItemPos(show, items, i, pos), depth + 1);
      RereadNextItem(show, strtod, items, i);
      if Fits(items[i], MAX_DEPTH - depth - 1) {
        ReadsItems(show, strtod, items, i + 1, tokens, buf, offset, pos, depth);
      }
    }
  }

  lemma {:induction false} MemberParts(show: Show, m: Member, tokens: seq<Token>, buf: Bytes, offset: nat, pos: nat)
    requires At(buf, pos, PrintMember(show, m)) && Has(tokens, offset, TokensOfMember(show, m, pos))
             && AllPlaced(tokens, buf)
    ensures offset < |tokens| && tokens[offset].kind.StringToken? && WellPlaced(tokens[offset], buf)
    ensures buf[tokens[offset].start..tokens[offset].end] == Escape(m.key)
    ensures Ready(show, m.value, tokens, buf, offset + 1, pos + |Quote(m.key)| + 1)
    ensures |TokensOfMember(show, m, pos)| == 1 + |TokensOf(show, m.value, pos + |Quote(m.key)| + 1)|
  {
    assert tokens[offset] == TokensOfMember(show, m, pos)[0];
    hide Print, TokensOf;
    AtAppend(buf, pos, Quote(m.key) + ":", Print(show, m.value));
    AtAppend(buf, pos, Quote(m.key), ":");
    QuotedPart(buf, pos, m.key);
    HasAppend(tokens, offset, [tokens[offset]], TokensOf(show, m.value, pos + |Quote(m.key)| + 1));
  }

  lemma {:induction false} ReadsMembers(show: Show, strtod: Strtod, members: seq<Member>, i: nat, tokens: seq<Token>,
      buf: Bytes, offset: nat, pos: nat, depth: nat)
    requires i <= |members| && depth < MAX_DEPTH && AllPlaced(tokens, buf)
    requires Canonical(Object(members))
    requires At(buf, pos, PrintMembers(show, members)) && Has(tokens, offset, TokensOfMembers(show, members, pos))
    requires offset + |TokensOfMembers(show, members[..i], pos)| <= |tokens|
    ensures ReadMembers(strtod, tokens, buf, offset + |TokensOfMembers(show, members[..i], pos)|, depth, |members| - i,
                        RereadMembers(show, strtod, members[..i])) ==
            if forall k :: i <= k < |members| ==> Fits(members[k].value, MAX_DEPTH - depth - 1)
            then Parsed(Object(RereadMembers(show, strtod, members)), offset + |TokensOfMembers(show, members, pos)|)
            else Failed
    decreases members, |members| - i
  {
    hide At, Has, AllPlaced, PrintMember, TokensOfMember, TokensOf, PrintMembers, TokensOfMembers, Read, Canonical,
         Fits, SetMember, Ready, Escape, Quote, Reread, RereadMembers;
    assert members[..|members|] == members;
    if i < |members| {
      var m := members[i];
      MemberIsCanonical(members, i);
      MemberIsNew(show, strtod, members, i);
      var at, p := offset + |TokensOfMembers(show, members[..i], pos)|, MemberPos(show, members, i, pos);
      MemberIsThere(show, members, i, |members|, buf, pos, tokens, offset);
      NextMember(show, members, i, pos);
      MemberParts(show, m, tokens, buf, at, p);
      ReadsTree(show, strtod, m.value, tokens, buf, at + 1, p + |Quote(m.key)| + 1, depth + 1);
      if Fits(m.value, MAX_DEPTH - depth - 1) {
        ReadsMembers(show, strtod, members, i + 1, tokens, buf, offset, pos, depth);
      }
    }
  }

  lemma {:induction false} MemberIsCanonical(members: seq<Member>, i: nat)
    requires Canonical(Object(members)) && i < |members|
    ensures Canonical(members[i].value)
  {
  }

  lemma {:induction false} MemberIsNew(show: Show, strtod: Strtod, members: seq<Member>, i: nat)
    requires Canonical(Object(members)) && i < |members|
    ensures SetMember(RereadMembers(show, strtod, members[..i]), Escape(members[i].key),
            Reread(show, strtod, members[i].value))
         == RereadMembers(show, strtod, members[..i + 1])
  {
    hide SetMember, Reread, RereadMembers;
    var m, front := members[i], members[..i];
    assert NUL !in m.key;
    SameKeys(show, strtod, front);
    MemberIsSet(RereadMembers(show, strtod, front), Member(m.key, Reread(show, strtod, m.value)));
    RereadNextMember(show, strtod, members, i);
  }

  lemma {:induction false} SameKeys(show: Show, strtod: Strtod, members: seq<Member>)
    ensures |RereadMembers(show, strtod, members)| == |members|
    ensures forall k :: 0 <= k < |members| ==> RereadMembers(show, strtod, members)[k].key == members[k].key
  {
    forall k | 0 <= k < |members|
      ensures |RereadMembers(show, strtod, members)| == |members|
              && RereadMembers(show, strtod, members)[k].key == members[k].key
    {
      RereadMembersAt(show, strtod, members, k);
    }
  }

  // ------------------------------------------------------------------- whole documents

  predicate TokenWithin(t: Token, pos: nat, end: nat) {
    pos <= t.start <= t.end <= end && (t.kind.PrimitiveToken? ==> t.start < t.end)
  }

  /** Every token lies within the text from `pos` to `end`. */
  predicate Within(tokens: seq<Token>, pos: nat, end: nat) {
    forall i :: 0 <= i < |tokens| ==> TokenWithin(tokens[i], pos, end)
  }

  lemma WithinAppend(a: seq<Token>, aPos: nat, aEnd: nat, b: seq<Token>, bPos: nat, bEnd: nat, pos: nat, end: nat)
    requires Within(a, aPos, aEnd) && Within(b, bPos, bEnd)
    requires pos <= aPos && pos <= bPos && aEnd <= end && bEnd <= end
    ensures Within(a + b, pos, end)
  {
  }

  lemma {:induction false} TokensWithin(show: Show, v: Value, pos: nat)
    requires Canonical(v)
    ensures Within(TokensOf(show, v, pos), pos, pos + |Print(show, v)|)
    decreases v
  {
    hide *;
    if v.List? {
      CanonicalItems(v.items);
      ItemsWithin(show, v.items, |v.items|, pos + 1);
      ListWithin(show, v.items, pos);
    } else if v.Object? {
      MembersWithin(show, v.members, |v.members|, pos + 1);
      ObjectWithin(show, v.members, pos);
    } else {
      LeafWithin(show, v, pos);
    }
  }

  lemma {:induction false} LeafWithin(show: Show, v: Value, pos: nat)
    requires Canonical(v) && !v.List? && !v.Object?
    ensures Within(TokensOf(show, v, pos), pos, pos + |Print(show, v)|)
  {
    hide Escape;
    if !v.Str? {
      PrimitiveIsNotEmpty(show, v);
    }
  }

  lemma {:induction false} CanonicalItems(items: seq<Value>)
    requires Canonical(List(items))
    ensures forall k :: 0 <= k < |items| ==> Canonical(items[k])
  {
  }

  lemma {:induction false} ListWithin(show: Show, items: seq<Value>, pos: nat)
    requires Within(TokensOfItems(show, items[..|items|], pos + 1), pos + 1,
                    pos + 1 + |PrintItems(show, items[..|items|])|)
    ensures Within(TokensOf(show, List(items), pos), pos, pos + |Print(show, List(items))|)
  {
    hide PrintItems, TokensOfItems, Print, TokensOf;
    assert items[..|items|] == items;
    ListText(show, items, pos);
    var end := pos + |Print(show, List(items))|;
    WithinAppend([Token(ArrayToken, pos, end, |items|)], pos, end, TokensOfItems(show, items, pos + 1),
                 pos + 1, end - 1, pos, end);
  }

  lemma {:induction false} ObjectWithin(show: Show, members: seq<Member>, pos: nat)
    requires Within(TokensOfMembers(show, members[..|members|], pos + 1), pos + 1,
                    pos + 1 + |PrintMembers(show, members[..|members|])|)
    ensures Within(TokensOf(show, Object(members), pos), pos, pos + |Print(show, Object(members))|)
  {
    hide PrintMembers, TokensOfMembers, Print, TokensOf;
    assert members[..|members|] == members;
    ObjectText(show, members, pos);
    var end := pos + |Print(show, Object(members))|;
    WithinAppend([Token(ObjectToken, pos, end, |members|)], pos, end, TokensOfMembers(show, members, pos + 1), pos + 1,
                 end - 1, pos, end);
  }

  lemma NothingWithin(pos: nat)
    ensures Within([], pos, pos)
  {
  }

  lemma {:induction false} ItemsWithin(show: Show, items: seq<Value>, n: nat, pos: nat)
    requires n <= |items| && forall k :: 0 <= k < |items| ==> Canonical(items[k])
    ensures Within(TokensOfItems(show, items[..n], pos), pos, pos + |PrintItems(show, items[..n])|)
    decreases items, n
  {
    hide *;
    if n == 0 {
      assert items[..0] == [];
      NothingText(show, pos);
      NothingWithin(pos);
    } else {
      var i := n - 1;
      ItemsWithin(show, items, i, pos);
      TokensWithin(show, items[i], ItemPos(show, items, i, pos));
      ItemsWithinNext(show, items, i, pos);
    }
  }

  lemma {:induction false} ItemsWithinNext(show: Show, items: seq<Value>, i: nat, pos: nat)
    requires i < |items|
    requires Within(TokensOfItems(show, items[..i], pos), pos, pos + |PrintItems(show, items[..i])|)
    requires Within(TokensOf(show, items[i], ItemPos(show, items, i, pos)), ItemPos(show, items, i, pos),
                    ItemPos(show, items, i, pos) + |Print(show, items[i])|)
    ensures Within(TokensOfItems(show, items[..i + 1], pos), pos, pos + |PrintItems(show, items[..i + 1])|)
  {
    hide Print, PrintItems, TokensOf, TokensOfItems, Within;
    NextItem(show, items, i, pos);
    var p := ItemPos(show, items, i, pos);
    assert p + |Print(show, items[i])| == pos + |PrintItems(show, items[..i + 1])|;
    assert pos <= p && |PrintItems(show, items[..i])| <= |PrintItems(show, items[..i + 1])|;
    WithinAppend(TokensOfItems(show, items[..i], pos), pos, pos + |PrintItems(show, items[..i])|,
                 TokensOf(show, items[i], p), p, p + |Print(show, items[i])|, pos,
                 pos + |PrintItems(show, items[..i + 1])|);
  }

  lemma {:induction false} MemberWithin(show: Show, m: Member, pos: nat)
    requires Within(TokensOf(show, m.value, pos + |Quote(m.key)| + 1), pos + |Quote(m.key)| + 1,
                    pos + |Quote(m.key)| + 1 + |Print(show, m.value)|)
    ensures Within(TokensOfMember(show, m, pos), pos, pos + |PrintMember(show, m)|)
  {
    hide Print, TokensOf, Escape;
    var p, end := pos + |Quote(m.key)| + 1, pos + |PrintMember(show, m)|;
    WithinAppend([Token(StringToken, pos + 1, pos + |Quote(m.key)| - 1, 1)], pos, end, TokensOf(show, m.value, p), p,
                 end, pos, end);
  }

  lemma {:induction false} MembersWithin(show: Show, members: seq<Member>, n: nat, pos: nat)
    requires n <= |members| && Canonical(Object(members))
    ensures Within(TokensOfMembers(show, members[..n], pos), pos, pos + |PrintMembers(show, members[..n])|)
    decreases members, n
  {
    hide *;
    if n == 0 {
      assert members[..0] == [];
      NothingText(show, pos);
      NothingWithin(pos);
    } else {
      var i := n - 1;
      MemberIsCanonical(members, i);
      MembersWithin(show, members, i, pos);
      TokensWithin(show, members[i].value, MemberPos(show, members, i, pos) + |Quote(members[i].key)| + 1);
      MemberWithin(show, members[i], MemberPos(show, members, i, pos));
      MembersWithinNext(show, members, i, pos);
    }
  }

  lemma {:induction false} MembersWithinNext(show: Show, members: seq<Member>, i: nat, pos: nat)
    requires i < |members|
    requires Within(TokensOfMembers(show, members[..i], pos), pos, pos + |PrintMembers(show, members[..i])|)
    requires Within(TokensOfMember(show, members[i], MemberPos(show, members, i, pos)),
                    MemberPos(show, members, i, pos),
                    MemberPos(show, members, i, pos) + |PrintMember(show, members[i])|)
    ensures Within(TokensOfMembers(show, members[..i + 1], pos), pos, pos + |PrintMembers(show, members[..i + 1])|)
  {
    hide PrintMember, PrintMembers, TokensOfMember, TokensOfMembers, Within;
    NextMember(show, members, i, pos);
    var p := MemberPos(show, members, i, pos);
    assert p + |PrintMember(show, members[i])| == pos + |PrintMembers(show, members[..i + 1])|;
    assert pos <= p && |PrintMembers(show, members[..i])| <= |PrintMembers(show, members[..i + 1])|;
    WithinAppend(TokensOfMembers(show, members[..i], pos), pos, pos + |PrintMembers(show, members[..i])|,
                 TokensOfMember(show, members[i], p), p, p + |PrintMember(show, members[i])|,
                 pos, pos + |PrintMembers(show, members[..i + 1])|);
  }

  lemma WithinIsPlaced(tokens: seq<Token>, buf: Bytes)
    requires Within(tokens, 0, |buf|)
    ensures AllPlaced(tokens, buf)
  {
  }

  /** For the tokens of a whole document: the value is rebuilt, with its numbers reread, and all
      tokens are used, exactly if containers nest at most 64 deep; otherwise reading fails. */
  lemma RebuildsDocument(show: Show, strtod: Strtod, v: Value)
    requires Canonical(v)
    ensures var tokens, buf := TokensOf(show, v, 0), Print(show, v);
            && AllPlaced(tokens, buf)
            && Read(strtod, tokens, buf, 0, 0) ==
                 if Height(v, 0) <= MAX_DEPTH then Parsed(Reread(show, strtod, v), |tokens|) else Failed
  {
    hide Print, TokensOf, Read, Within, AllPlaced, Canonical, Height, Reread;
    TokensWithin(show, v, 0);
    WithinIsPlaced(TokensOf(show, v, 0), Print(show, v));
    ReadsTree(show, strtod, v, TokensOf(show, v, 0), Print(show, v), 0, 0, 0);
  }
}
