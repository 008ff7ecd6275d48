/**
 An envelope that parses and is lost when it is written again: the length header of its item is a
 double, which counts as no length, and comes back from its text as an integer.
 */
module EnvelopeLength {
  import opened Prelude
  import opened Bytes
  import opened Json
  import opened JsonReader
  import opened JsonRebuild
  import opened Jsmn
  import opened JsonRoundTrip
  import opened JsonCanonical
  import opened Envelope
  import opened EnvelopeRoundTrip

  // ----------------------------------------------------------------- headers with one key

  function Header(key: Bytes, value: Value): Value {
    Object([Member(key, value)])
  }

  predicate IsNumber(v: Value) {
    v.Int? || v.Real?
  }

  lemma OneMember(show: Show, strtod: Strtod, m: Member, levels: nat)
    requires levels > 0
    ensures PrintMembers(show, [m]) == PrintMember(show, m)
    ensures PruneMembers([m], levels) == [Member(m.key, Prune(m.value, levels))]
    ensures RereadMembers(show, strtod, [m]) == [Member(m.key, Reread(show, strtod, m.value))]
  {
    hide PrintMember, Prune, Reread;
    assert [m][..0] == [];
  }

  lemma HeaderIsCanonical(key: Bytes, value: Value)
    requires NUL !in key && Canonical(value)
    ensures Canonical(Header(key, value))
  {
  }

  lemma HeaderHasKey(key: Bytes, value: Value)
    ensures GetByKey(Header(key, value), key) == value
  {
  }

  lemma HeaderIsShallow(show: Show, strtod: Strtod, key: Bytes, value: Value)
    requires IsNumber(value)
    ensures Prune(Header(key, value), MAX_DEPTH) == Header(key, value)
  {
    hide PruneMembers;
    OneMember(show, strtod, Member(key, value), MAX_DEPTH - 1);
  }

  lemma HeaderIsReread(show: Show, strtod: Strtod, key: Bytes, value: Value)
    ensures Reread(show, strtod, Header(key, value)) == Header(key, Reread(show, strtod, value))
  {
    hide Reread, RereadMembers;
    OneMember(show, strtod, Member(key, value), 1);
    RereadContainer(show, strtod, Header(key, value));
  }

  lemma HeaderIsPrinted(show: Show, strtod: Strtod, key: Bytes, value: Value)
    requires IsNumber(value)
    ensures HeaderText(show, Header(key, value)) == "{" + (Quote(key) + ":" + Print(show, value)) + "}"
  {
    hide Print, PrintMembers, Prune, Quote;
    HeaderIsShallow(show, strtod, key, value);
    OneMember(show, strtod, Member(key, value), 1);
    ObjectText(show, [Member(key, value)], 0);
  }

  // ------------------------------------------------------------- envelopes with one empty item

  /** The text of an envelope without headers and with one empty item. */
  function OneItemText(line: Bytes): Bytes {
    "{}" + ("\n" + (line + "\n"))
  }

  lemma EmptyHeaderLine(strtod: Strtod)
    ensures FromJson(strtod, "{}") == Object([])
  {
    var literal: Show := (bits: nat) => "0";
    assert Print(literal, Object([])) == "{}";
    ParsesDocument(literal, strtod, Object([]));
    hide FromJson;
  }

  /** The item as it is parsed: it exists unless its headers declare a payload. */
  function Parsed(h: Value): Option<seq<Item>> {
    if PayloadLength(h, []).None? then None else Some([Item(h, [])])
  }

  lemma OneLineIsParsed(strtod: Strtod, line: Bytes)
    requires '\n' !in line && FromJson(strtod, line).Object?
    ensures ParseItems(strtod, line + "\n") == Parsed(FromJson(strtod, line))
  {
    hide FromJson, Newline, PayloadLength, SkipNewlines, ParseItems;
    var text := line + "\n";
    NewlineAfter(line, "\n");
    assert text[..|line|] == line && text[|line| + 1..] == [];
    NothingToSkip();
    LastItem(strtod, text);
  }

  lemma LastItem(strtod: Strtod, text: Bytes)
    requires text != []
    ensures FirstItem(strtod, text).None? ==> ParseItems(strtod, text).None?
    ensures FirstItem(strtod, text).Some? && FirstItem(strtod, text).value.1 == [] ==>
              ParseItems(strtod, text) == Some([FirstItem(strtod, text).value.0])
  {
    hide FirstItem;
    assert ParseItems(strtod, []) == Some([]);
    if FirstItem(strtod, text).Some? {
      var item := FirstItem(strtod, text).value.0;
      assert [item] + [] == [item];
    }
  }

  lemma OneItemIsParsed(show: Show, strtod: Strtod, key: Bytes, value: Value)
    requires NUL !in key && Canonical(value) && IsNumber(value)
    ensures Deserialize(strtod, OneItemText(HeaderText(show, Header(key, value)))) ==
              match Parsed(Header(key, Reread(show, strtod, value)))
              case None => None
              case Some(items) => Some(Envelope(Object([]), items))
  {
    hide Print, FromJson, HeaderText, Canonical, Reread, Prune, Newline, HeadersSurvive, ParseItems, Parsed, Header;
    var h, line := Header(key, value), HeaderText(show, Header(key, value));
    HeaderIsCanonical(key, value);
    HeaderIsObject(key, value);
    HeaderIsShallow(show, strtod, key, value);
    HeaderIsReread(show, strtod, key, value);
    HeaderLine(show, strtod, h);
    EmptyHeaderLine(strtod);
    var text := OneItemText(line);
    NewlineAfter("{}", "\n" + (line + "\n"));
    assert text[..2] == "{}" && text[3..] == line + "\n";
    OneLineIsParsed(strtod, line);
  }

  lemma HeaderIsObject(key: Bytes, value: Value)
    ensures Header(key, value).Object?
  {
  }

  lemma OneItemIsWritten(show: Show, headers: Value)
    ensures Serialize(show, Envelope(Object([]), [Item(headers, [])])) == OneItemText(HeaderText(show, headers))
  {
    assert HeaderText(show, Object([])) == "{}";
    hide HeaderText;
    var items := [Item(headers, [])];
    ItemsTextIs(show, items);
    assert items[1..] == [];
    assert ItemsText(show, []) == [];
    hide ItemsText;
    assert HeaderText(show, headers) + "\n" + ([] + []) == HeaderText(show, headers) + "\n";
  }

  // ----------------------------------------------------------------------------- length 5.0

  lemma FiveComesBackAs(show: Show, strtod: Strtod)
    requires PrintsFive(show, strtod)
    ensures Print((bits: nat) => "5.0", Real(0)) == "5.0"
    ensures Reread((bits: nat) => "5.0", strtod, Real(0)) == Real(strtod("5.0"))
    ensures Print(show, Real(strtod("5.0"))) == "5" && Reread(show, strtod, Real(strtod("5.0"))) == Int(5, Int32)
  {
    FiveIsRead(strtod);
    hide ReadPrimitive;
  }

  lemma DeclaredLengths(d: nat)
    ensures Parsed(Header("length", Real(d))) == Some([Item(Header("length", Real(d)), [])])
    ensures Parsed(Header("length", Int(5, Int32))) == None
  {
    HeaderHasKey("length", Real(d));
    HeaderHasKey("length", Int(5, Int32));
    hide GetByKey, Header;
  }

  /** The text of an envelope with one empty item whose length header is `number`. */
  function LengthText(number: Bytes): Bytes {
    OneItemText("{" + (Quote("length") + ":" + number) + "}")
  }

  function LengthItem(length: Value): Item {
    Item(Header("length", length), [])
  }

  lemma LengthIsPrinted(show: Show, strtod: Strtod, length: Value)
    requires IsNumber(length)
    ensures OneItemText(HeaderText(show, LengthItem(length).headers)) == LengthText(Print(show, length))
  {
    HeaderIsPrinted(show, strtod, "length", length);
    hide HeaderText, Header, Quote, Print;
  }

  lemma LengthIsParsed(show: Show, strtod: Strtod, length: Value)
    requires Canonical(length) && IsNumber(length)
    ensures Deserialize(strtod, LengthText(Print(show, length))) ==
              match Parsed(LengthItem(Reread(show, strtod, length)).headers)
              case None => None
              case Some(items) => Some(Envelope(Object([]), items))
  {
    hide Deserialize, HeaderText, Header, Print, Reread, Parsed, OneItemText, LengthText, Canonical;
    LengthIsPrinted(show, strtod, length);
    OneItemIsParsed(show, strtod, "length", length);
  }

  /** The failure at a concrete text: an item with the length header `5.0` parses with an empty
      payload, is written with the length header `5`, and then does not parse. */
  lemma {:induction false} LengthFiveIsLost(show: Show, strtod: Strtod)
    requires PrintsFive(show, strtod)
    ensures var e := Envelope(Object([]), [LengthItem(Real(strtod("5.0")))]);
            && Deserialize(strtod, LengthText("5.0")) == Some(e)
            && Serialize(show, e) == LengthText("5")
            && Deserialize(strtod, Serialize(show, e)).None?
  {
    hide Print, Reread, Deserialize, HeaderText, Serialize, Quote, Header, Parsed, OneItemText, LengthText;
    var five := strtod("5.0");
    FiveComesBackAs(show, strtod);
    LengthIsParsed((bits: nat) => "5.0", strtod, Real(0));
    LengthIsParsed(show, strtod, Real(five));
    LengthIsPrinted(show, strtod, Real(five));
    OneItemIsWritten(show, LengthItem(Real(five)).headers);
    DeclaredLengths(five);
  }
}
