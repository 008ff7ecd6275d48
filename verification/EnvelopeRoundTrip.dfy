/** Which envelopes survive being written and read again: exactly those whose items are framed. */
module EnvelopeRoundTrip {
  import opened Prelude
  import opened Bytes
  import opened JsonString
  import opened Json
  import opened JsonReader
  import opened JsonRebuild
  import opened Jsmn
  import opened JsonTokenize
  import opened JsonRoundTrip
  import opened JsonCanonical
  import opened Envelope

  // ----------------------------------------------------------------------- one line

  predicate Printable(s: Bytes) {
    forall i :: 0 <= i < |s| ==> s[i] as int >= 32
  }

  lemma PrintableQuote(s: Bytes)
    ensures Printable(Quote(s))
  {
    forall i | 0 <= i < |Escape(s)| ensures Escape(s)[i] as int >= 32 { EscapedIsPrintable(s, i); }
    hide Escape;
  }

  lemma PrintableLeaf(show: Show, v: Value)
    requires Canonical(v) && !v.List? && !v.Object?
    ensures Printable(Print(show, v))
  {
    if v.Str? {
      PrintableQuote(v.s);
    } else {
      PrimitiveIsPlain(show, v);
    }
  }

  /** The text of a value is one line. */
  lemma {:induction false} PrintableTree(show: Show, v: Value)
    requires Canonical(v)
    ensures Printable(Print(show, v))
    decreases v
  {
    hide *;
    match v
    case List(items) =>
      CanonicalItems(items);
      PrintableItems(show, items, |items|);
      PrintableList(show, items);
    case Object(members) =>
      PrintableMembers(show, members, |members|);
      PrintableObject(show, members);
    case _ => PrintableLeaf(show, v);
  }

  lemma {:induction false} PrintableList(show: Show, items: seq<Value>)
    requires Printable(PrintItems(show, items[..|items|]))
    ensures Printable(Print(show, List(items)))
  {
    hide PrintItems, Print;
    assert items[..|items|] == items;
    ListText(show, items, 0);
  }

  lemma {:induction false} PrintableObject(show: Show, members: seq<Member>)
    requires Printable(PrintMembers(show, members[..|members|]))
    ensures Printable(Print(show, Object(members)))
  {
    hide PrintMembers, Print;
    assert members[..|members|] == members;
    ObjectText(show, members, 0);
  }

  lemma {:induction false} PrintableItems(show: Show, items: seq<Value>, n: nat)
    requires n <= |items| && forall k :: 0 <= k < |items| ==> Canonical(items[k])
    ensures Printable(PrintItems(show, items[..n]))
    decreases items, n
  {
    hide Canonical, Print, PrintItems, TokensOf, TokensOfItems;
    if n == 0 {
      assert items[..0] == [];
      NothingText(show, 0);
    } else {
      PrintableItems(show, items, n - 1);
      PrintableTree(show, items[n - 1]);
      NextItem(show, items, n - 1, 0);
    }
  }

  lemma {:induction false} PrintableMembers(show: Show, members: seq<Member>, n: nat)
    requires n <= |members| && Canonical(Object(members))
    ensures Printable(PrintMembers(show, members[..n]))
    decreases members, n
  {
    hide Canonical, Print, PrintMembers, TokensOfMember, TokensOfMembers, Quote;
    if n == 0 {
      assert members[..0] == [];
      NothingText(show, 0);
    } else {
      var m := members[n - 1];
      PrintableMembers(show, members, n - 1);
      MemberIsCanonical(members, n - 1);
      PrintableTree(show, m.value);
      PrintableQuote(m.key);
      NextMember(show, members, n - 1, 0);
    }
  }

  /** Headers that come back from their text as they were: they fit the JSON writer, their
      integers have the narrowest type and their doubles come back as themselves. */
  predicate HeadersSurvive(show: Show, strtod: Strtod, headers: Value) {
    Height(headers, 1) <= MAX_DEPTH && NumbersSurvive(show, strtod, headers)
  }

  /** The same for headers that were read, whose integers are narrow. */
  predicate ReadHeadersSurvive(show: Show, strtod: Strtod, headers: Value) {
    Height(headers, 1) <= MAX_DEPTH && DoublesSurvive(show, strtod, headers)
  }

  /** What headers are on the wire: one line that starts with a brace and reads as the headers
      with their numbers reread and without what lies below 64 levels. */
  lemma {:induction false} HeaderLine(show: Show, strtod: Strtod, headers: Value)
    requires Canonical(headers) && headers.Object?
    ensures var line := HeaderText(show, headers);
            && '\n' !in line && line != [] && line[0] == '{'
            && FromJson(strtod, line) == Reread(show, strtod, Prune(headers, MAX_DEPTH))
            && FromJson(strtod, line).Object?
            && (FromJson(strtod, line) == headers <==> HeadersSurvive(show, strtod, headers))
  {
    var p := Prune(headers, MAX_DEPTH);
    assert p.Object?;
    RereadContainer(show, strtod, p);
    hide Canonical, Print, Prune, FromJson, Height, Reread, NumbersSurvive;
    PrunedIsCanonical(headers, MAX_DEPTH);
    PrintableTree(show, p);
    ObjectText(show, p.members, 0);
    WrittenIsRead(show, strtod, headers);
  }

  // ------------------------------------------------------------------------ framing

  /** The length header, if there is one, is the length of the payload; without one the payload
      has no line break.  A length header that is no integer counts as zero. */
  predicate Framed(item: Item) {
    match GetByKey(item.headers, "length")
    case Null => '\n' !in item.payload
    case Int(n, _) => n == |item.payload| && n < SIZE_MAX
    case _ => item.payload == []
  }

  predicate Restorable(show: Show, strtod: Strtod, item: Item) {
    HeadersSurvive(show, strtod, item.headers) && Framed(item)
  }

  predicate WellFormed(item: Item) {
    item.headers.Object? && Canonical(item.headers)
  }

  lemma {:induction false} NewlineAfter(a: Bytes, b: Bytes)
    requires '\n' !in a && (b == [] || b[0] == '\n')
    ensures Newline(a + b) == |a|
  {
    if a == [] {
      assert a + b == b;
    } else {
      assert (a + b)[1..] == a[1..] + b;
      NewlineAfter(a[1..], b);
    }
  }

  lemma {:induction false} ItemsTextIs(show: Show, items: seq<Item>)
    requires items != []
    ensures ItemsText(show, items) == "\n" + (HeaderText(show, items[0].headers) + "\n"
            + (items[0].payload + ItemsText(show, items[1..])))
  {
    hide HeaderText;
    Regroup(HeaderText(show, items[0].headers), items[0].payload, ItemsText(show, items[1..]));
  }

  lemma Regroup(line: Bytes, payload: Bytes, rest: Bytes)
    ensures "\n" + line + "\n" + payload + rest == "\n" + (line + "\n" + (payload + rest))
  {
  }

  lemma SkipOne(rest: Bytes)
    requires rest != [] && rest[0] != '\n'
    ensures SkipNewlines("\n" + rest) == rest && ("\n" + rest)[1..] == rest
  {
    assert ("\n" + rest)[1..] == rest;
  }

  /** The text of items, and the same behind the line break it starts with. */
  lemma {:induction false} ItemsTextStarts(show: Show, strtod: Strtod, items: seq<Item>)
    requires forall i :: 0 <= i < |items| ==> WellFormed(items[i])
    ensures items == [] ==> ItemsText(show, items) == []
    ensures items != [] ==>
              var rest := HeaderText(show, items[0].headers) + "\n" + (items[0].payload + ItemsText(show, items[1..]));
              && ItemsText(show, items) == "\n" + rest
              && ItemsText(show, items)[1..] == rest
              && SkipNewlines(ItemsText(show, items)) == rest
  {
    hide Print, Prune, Canonical, FromJson, HeadersSurvive, HeaderText, SkipNewlines;
    if items != [] {
      assert WellFormed(items[0]);
      HeaderLine(show, strtod, items[0].headers);
      ItemsTextIs(show, items);
      SkipOne(HeaderText(show, items[0].headers) + "\n" + (items[0].payload + ItemsText(show, items[1..])));
    }
  }

  /** The payload is cut where it ends exactly if it is framed. */
  lemma {:induction false} PayloadIsCut(item: Item, rest: Bytes)
    requires rest == [] || rest[0] == '\n'
    ensures Framed(item) ==> PayloadLength(item.headers, item.payload + rest) == Some(|item.payload|)
    ensures !Framed(item) ==>
              var n := PayloadLength(item.headers, item.payload + rest);
              n.None? || (item.payload + rest)[..n.value] != item.payload
  {
    hide GetByKey, Newline;
    var body := item.payload + rest;
    if Framed(item) && GetByKey(item.headers, "length").Null? {
      NewlineAfter(item.payload, rest);
    }
    var n := PayloadLength(item.headers, body);
    assert n.Some? ==> |body[..n.value]| == n.value;
  }

  lemma {:induction false} FirstItemOf(show: Show, strtod: Strtod, item: Item, rest: Bytes)
    requires WellFormed(item) && (rest == [] || rest[0] == '\n')
    ensures var r := FirstItem(strtod, HeaderText(show, item.headers) + "\n" + (item.payload + rest));
            && ((r.Some? && r.value.0 == item) <==> Restorable(show, strtod, item))
            && (Restorable(show, strtod, item) ==> r.value.1 == SkipNewlines(rest))
  {
    hide Print, Prune, Canonical, FromJson, HeadersSurvive, HeaderText, Newline, PayloadLength, Framed, SkipNewlines;
    var line, body := HeaderText(show, item.headers), item.payload + rest;
    var text := line + "\n" + body;
    HeaderLine(show, strtod, item.headers);
    assert text == line + ("\n" + body);
    NewlineAfter(line, "\n" + body);
    assert text[..|line|] == line && text[|line| + 1..] == body;
    PayloadIsCut(item, rest);
    assert body[..|item.payload|] == item.payload && body[|item.payload|..] == rest;
  }

  lemma {:induction false} ItemsAreRead(show: Show, strtod: Strtod, items: seq<Item>)
    requires forall i :: 0 <= i < |items| ==> WellFormed(items[i])
    ensures ParseItems(strtod, SkipNewlines(ItemsText(show, items))) == Some(items)
       <==> forall i :: 0 <= i < |items| ==> Restorable(show, strtod, items[i])
  {
    hide Print, Prune, Canonical, FromJson, HeadersSurvive, HeaderText, ItemsText, FirstItem, Restorable, WellFormed,
        SkipNewlines;
    ItemsTextStarts(show, strtod, items);
    if items == [] {
      NothingToSkip();
    } else {
      var item, back := items[0], items[1..];
      var rest := ItemsText(show, back);
      assert WellFormed(item);
      ItemsTextStarts(show, strtod, back);
      FirstItemOf(show, strtod, item, rest);
      ItemsAreRead(show, strtod, back);
      assert items == [item] + back;
    }
  }

  lemma NothingToSkip()
    ensures SkipNewlines([]) == []
  {
  }

  /** Writing an envelope and reading it again gives back the headers and the items, with item
      headers and payload bytes, exactly if every item is framed and all headers survive.  Payloads
      may hold any bytes. */
  lemma {:induction false} EnvelopeIsRestored(show: Show, strtod: Strtod, e: Envelope)
    requires e.headers.Object? && Canonical(e.headers) && forall i :: 0 <= i < |e.items| ==> WellFormed(e.items[i])
    ensures Deserialize(strtod, Serialize(show, e)) == Some(e)
       <==> HeadersSurvive(show, strtod, e.headers)
            && forall i :: 0 <= i < |e.items| ==> Restorable(show, strtod, e.items[i])
  {
    hide Print, Prune, Canonical, FromJson, HeadersSurvive, HeaderText, ItemsText, ParseItems, Restorable, WellFormed,
         SkipNewlines, Newline;
    var line, rest := HeaderText(show, e.headers), ItemsText(show, e.items);
    var text := line + rest;
    HeaderLine(show, strtod, e.headers);
    ItemsTextStarts(show, strtod, e.items);
    NewlineAfter(line, rest);
    assert text[..|line|] == line;
    assert rest != [] ==> text[|line| + 1..] == rest[1..];
    NothingToSkip();
    ItemsAreRead(show, strtod, e.items);
  }

  // ------------------------------------------------------------------- made in memory

  /** An item made for a payload in memory is restored exactly if the length of the payload fits
      the 32-bit integer that its header is made from. */
  lemma AddedItemIsRestored(show: Show, strtod: Strtod, kind: Bytes, payload: Bytes)
    ensures WellFormed(AddedItem(kind, payload))
    ensures Restorable(show, strtod, AddedItem(kind, payload)) <==> |payload| < 0x8000_0000
  {
    var item := AddedItem(kind, payload);
    var members := [Member("type", Str(kind)), Member("length", Int(ToInt32(|payload|), Int32))];
    assert SetByKey([Member("type", Str(kind))], "length", Int(ToInt32(|payload|), Int32)) == members by {
      assert [Member("type", Str(kind))][1..] == [];
    }
    assert item.headers == Object(members);
    assert Lookup(members, "length") == Lookup(members[1..], "length") by { assert |"type"| != |"length"|; }
    assert GetByKey(item.headers, "length") == Int(ToInt32(|payload|), Int32);
    FlatHeight(members);
    assert NumbersSurvive(show, strtod, item.headers);
  }

  lemma {:induction false} FlatHeight(members: seq<Member>)
    requires forall i :: 0 <= i < |members| ==> !members[i].value.List? && !members[i].value.Object?
    ensures HeightMembers(members, 1) <= 1 && Height(Object(members), 1) <= 2
  {
    if members != [] {
      FlatHeight(members[..|members| - 1]);
    }
  }

  // -------------------------------------------------------------------------- event ids

  lemma {:induction false} LookupKept(show: Show, strtod: Strtod, members: seq<Member>, levels: nat, key: Bytes)
    requires levels > 0
    ensures var v, w := Lookup(members, key), Lookup(RereadMembers(show, strtod, PruneMembers(members, levels)), key);
            (v.Str? || w.Str?) ==> v == w
  {
    var pruned := PruneMembers(members, levels);
    forall i | 0 <= i < |members|
      ensures |pruned| == |members| == |RereadMembers(show, strtod, pruned)|
      ensures var m := RereadMembers(show, strtod, pruned)[i];
              m.key == members[i].key && (m.value.Str? || members[i].value.Str? ==> m.value == members[i].value)
    {
      PruneMembersAt(members, levels, i);
      RereadMembersAt(show, strtod, pruned, i);
      StringsStay(show, strtod, members[i].value, levels);
    }
    if members == [] {
      assert pruned == [];
    }
    LookupPointwise(members, RereadMembers(show, strtod, pruned), key);
  }

  lemma {:induction false} PruneMembersAt(members: seq<Member>, levels: nat, i: nat)
    requires levels > 0 && i < |members|
    ensures |PruneMembers(members, levels)| == |members|
    ensures PruneMembers(members, levels)[i] == Member(members[i].key, Prune(members[i].value, levels))
  {
    hide Prune;
    var k := |members| - 1;
    if k > 0 {
      PruneMembersAt(members[..k], levels, if i < k then i else 0);
    }
  }

  /** Strings stay what they are, and nothing else becomes a string. */
  lemma StringsStay(show: Show, strtod: Strtod, v: Value, levels: nat)
    requires levels > 0
    ensures var w := Reread(show, strtod, Prune(v, levels)); (v.Str? || w.Str?) ==> v == w
  {
  }

  lemma {:induction false} LookupPointwise(a: seq<Member>, b: seq<Member>, key: Bytes)
    requires |a| == |b|
    requires forall i :: 0 <= i < |a| ==>
               a[i].key == b[i].key && (a[i].value.Str? || b[i].value.Str? ==> a[i].value == b[i].value)
    ensures var v, w := Lookup(a, key), Lookup(b, key); (v.Str? || w.Str?) ==> v == w
  {
    if a != [] && a[0].key != key {
      LookupPointwise(a[1..], b[1..], key);
    }
  }

  /** String headers come back from the header line, whatever the other headers are. */
  lemma StringHeadersSurvive(show: Show, strtod: Strtod, headers: Value, key: Bytes)
    requires Canonical(headers) && headers.Object?
    ensures StringHeader(FromJson(strtod, HeaderText(show, headers)), key) == StringHeader(headers, key)
  {
    HeaderLine(show, strtod, headers);
    LookupKept(show, strtod, headers.members, MAX_DEPTH - 1, key);
    RereadContainer(show, strtod, Prune(headers, MAX_DEPTH));
    hide FromJson, HeaderText, Lookup, Reread, RereadMembers, PruneMembers, CString;
  }

  /** Whenever an envelope can be parsed, its raw event id is the one that parsing gives; and an
      envelope that was serialized keeps its event id even if nothing else survives. */
  lemma EventIdsAgree(show: Show, strtod: Strtod, text: Bytes, e: Envelope)
    ensures Deserialize(strtod, text).Some? ==> RawEventId(strtod, text) == EventId(Deserialize(strtod, text).value)
    ensures e.headers.Object? && Canonical(e.headers) && (forall i :: 0 <= i < |e.items| ==> WellFormed(e.items[i])) ==>
              RawEventId(strtod, Serialize(show, e)) == EventId(e)
  {
    hide Print, Prune, Canonical, FromJson, HeaderText, ItemsText, ParseItems, WellFormed, Newline, StringHeader,
         HeadersSurvive, Reread;
    if e.headers.Object? && Canonical(e.headers) && (forall i :: 0 <= i < |e.items| ==> WellFormed(e.items[i])) {
      var line, rest := HeaderText(show, e.headers), ItemsText(show, e.items);
      HeaderLine(show, strtod, e.headers);
      ItemsTextStarts(show, strtod, e.items);
      NewlineAfter(line, rest);
      assert (line + rest)[..|line|] == line;
      StringHeadersSurvive(show, strtod, e.headers, "event_id");
    }
  }

  /** The event of an item is restored from its payload, with its numbers reread and without what
      lies below 64 levels, and so it is the same event exactly if it fits and its numbers survive. */
  lemma EventIsRestored(show: Show, strtod: Strtod, kind: Bytes, event: Value)
    requires Canonical(event) && (kind == "event" || kind == "transaction")
    ensures var restored := RestoredEvent(strtod, AddedItem(kind, HeaderText(show, event)));
            && restored == Reread(show, strtod, Prune(event, MAX_DEPTH))
            && (restored == event <==> Height(event, 1) <= MAX_DEPTH && NumbersSurvive(show, strtod, event))
  {
    hide Print, Prune, Canonical, FromJson, Height, StringHeader, AddedItem, Reread, NumbersSurvive;
    PrunedIsCanonical(event, MAX_DEPTH);
    NotEmpty(show, Prune(event, MAX_DEPTH));
    WrittenIsRead(show, strtod, event);
    AddedKind(kind, HeaderText(show, event));
  }

  lemma AddedKind(kind: Bytes, payload: Bytes)
    requires NUL !in kind
    ensures AddedItem(kind, payload).payload == payload
            && StringHeader(AddedItem(kind, payload).headers, "type") == kind
  {
    CStringKeeps(kind);
    hide CString, ToInt32;
  }

  lemma NotEmpty(show: Show, v: Value)
    requires Canonical(v)
    ensures Print(show, v) != []
  {
    if IsPrimitive(v) {
      PrimitiveIsPlain(show, v);
    }
  }

  // --------------------------------------------------------------------------- any text

  lemma FirstItemIsFramed(strtod: Strtod, text: Bytes)
    requires FirstItem(strtod, text).Some?
    ensures var item := FirstItem(strtod, text).value.0;
            WellFormed(item) && Narrow(item.headers) && Framed(item)
  {
    hide FromJson, Newline, Canonical, Narrow, GetByKey, SkipNewlines;
    FromJsonIsCanonical(strtod, text[..Newline(text)]);
  }

  lemma {:induction false} ParsedItemsAreFramed(strtod: Strtod, text: Bytes, i: nat)
    requires ParseItems(strtod, text).Some? && i < |ParseItems(strtod, text).value|
    ensures var item := ParseItems(strtod, text).value[i];
            WellFormed(item) && Narrow(item.headers) && Framed(item)
    decreases |text|
  {
    hide FirstItem, WellFormed, Narrow, Framed;
    FirstItemIsFramed(strtod, text);
    if i > 0 {
      ParsedItemsAreFramed(strtod, FirstItem(strtod, text).value.1, i - 1);
    }
  }

  /** Every text that parses gives an envelope whose items are framed, so writing it again and
      reading that gives the same envelope, exactly if all its headers fit the JSON writer and
      all doubles in them survive. */
  lemma {:induction false} ParsedEnvelopeAgain(show: Show, strtod: Strtod, text: Bytes)
    requires Deserialize(strtod, text).Some?
    ensures var e := Deserialize(strtod, text).value;
            Deserialize(strtod, Serialize(show, e)) == Some(e) <==>
              ReadHeadersSurvive(show, strtod, e.headers)
              && forall i :: 0 <= i < |e.items| ==> ReadHeadersSurvive(show, strtod, e.items[i].headers)
  {
    hide FromJson, Newline, Canonical, Narrow, DoublesSurvive, Height, Framed, WellFormed, ParseItems, Serialize;
    var e := Deserialize(strtod, text).value;
    FromJsonIsCanonical(strtod, text[..Newline(text)]);
    forall i | 0 <= i < |e.items| ensures WellFormed(e.items[i]) && Narrow(e.items[i].headers) && Framed(e.items[i]) {
      var n := Newline(text);
      ParsedItemsAreFramed(strtod, if n < |text| then text[n + 1..] else [], i);
    }
    EnvelopeIsRestored(show, strtod, e);
    assert forall i :: 0 <= i < |e.items| ==>
      (Restorable(show, strtod, e.items[i]) <==> ReadHeadersSurvive(show, strtod, e.items[i].headers));
  }
}
