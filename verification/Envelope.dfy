/**
 The envelope format (src/sentry_envelope.c): a line of headers, then for each item a line of
 item headers and a payload that is framed by its length or by the next line break.
 */
module Envelope {
  import opened Prelude
  import opened Bytes
  import opened Json
  import opened JsonReader
  import opened Jsmn
  import JsonWriter

  datatype Item = Item(headers: Value, payload: Bytes)

  datatype Envelope = Envelope(headers: Value, items: seq<Item>)

  const SIZE_MAX: int := UINT64_MAX

  // ---------------------------------------------------------------------- headers

  function Lookup(members: seq<Member>, key: Bytes): Value {
    if members == [] then Null
    else if members[0].key == key then members[0].value
    else Lookup(members[1..], key)
  }

  function GetByKey(v: Value, key: Bytes): Value {
    if v.Object? then Lookup(v.members, key) else Null
  }

  /** The string value of a header as C sees it. */
  function StringHeader(headers: Value, key: Bytes): Bytes {
    var v := GetByKey(headers, key);
    if v.Str? then CString(v.s) else []
  }

  // ------------------------------------------------------------------ serialization

  function HeaderText(show: Show, headers: Value): Bytes {
    Print(show, Prune(headers, MAX_DEPTH))
  }

  function ItemText(show: Show, item: Item): Bytes {
    "\n" + HeaderText(show, item.headers) + "\n" + item.payload
  }

  function ItemsText(show: Show, items: seq<Item>): Bytes {
    if items == [] then [] else ItemText(show, items[0]) + ItemsText(show, items[1..])
  }

  function Serialize(show: Show, e: Envelope): Bytes {
    HeaderText(show, e.headers) + ItemsText(show, e.items)
  }

  lemma {:induction false} ItemsTextPush(show: Show, items: seq<Item>, i: nat)
    requires i < |items|
    ensures ItemsText(show, items[..i + 1]) == ItemsText(show, items[..i]) + ItemText(show, items[i])
    decreases i
  {
    hide ItemText;
    if i == 0 {
      assert items[..1][1..] == [];
    } else {
      assert items[..i + 1][1..] == items[1..][..i] && items[..i][1..] == items[1..][..i - 1];
      ItemsTextPush(show, items[1..], i - 1);
    }
  }

  /** Appends one item to the buffer. */
  method SerializeItem(show: Show, out: Bytes, item: Item) returns (more: Bytes)
    ensures more == out + "\n" + HeaderText(show, item.headers) + "\n" + item.payload
  {
    hide Print, Prune;
    var writer := new JsonWriter.Writer(show);
    writer.WriteDocument(item.headers);
    more := out + "\n" + writer.out + "\n" + item.payload;
  }

  /** The serializer: it appends the headers and then item after item to one buffer. */
  method SerializeEnvelope(show: Show, e: Envelope) returns (text: Bytes)
    ensures text == Serialize(show, e)
  {
    hide Print, Prune;
    var headers := new JsonWriter.Writer(show);
    headers.WriteDocument(e.headers);
    text := headers.out;
    for i := 0 to |e.items|
      invariant text == HeaderText(show, e.headers) + ItemsText(show, e.items[..i])
    {
      ItemsTextPush(show, e.items, i);
      text := SerializeItem(show, text, e.items[i]);
      assert text == HeaderText(show, e.headers) + (ItemsText(show, e.items[..i]) + ItemText(show, e.items[i]));
    }
    assert e.items[..|e.items|] == e.items;
  }

  // ---------------------------------------------------------------- deserialization

  /** The place of the first line break, or the end of the text. */
  function Newline(text: Bytes): (n: nat)
    ensures n <= |text| && '\n' !in text[..n] && (n < |text| ==> text[n] == '\n')
  {
    if text == [] || text[0] == '\n' then 0
    else
      assert forall i :: 0 < i < |text| ==> text[i] == text[1..][i - 1];
      1 + Newline(text[1..])
  }

  function SkipNewlines(text: Bytes): (r: Bytes)
    ensures |r| <= |text| && (r != [] ==> r[0] != '\n')
  {
    if text != [] && text[0] == '\n' then SkipNewlines(text[1..]) else text
  }

  /** How much of `body` is the payload, or an error. */
  function PayloadLength(headers: Value, body: Bytes): (r: Option<nat>)
    ensures r.Some? ==> r.value <= |body|
  {
    match GetByKey(headers, "length")
    case Null => Some(Newline(body))
    case Int(n, _) => if n < 0 || n >= SIZE_MAX || n > |body| then None else Some(n)
    case _ => Some(0)
  }

  /** One item at the front of `text`, and the text behind it. */
  function FirstItem(strtod: Strtod, text: Bytes): (r: Option<(Item, Bytes)>)
    ensures r.Some? ==> |r.value.1| < |text|
  {
    var n := Newline(text);
    if n == |text| then None
    else
      var headers, body := FromJson(strtod, text[..n]), text[n + 1..];
      if !headers.Object? then None
      else
        match PayloadLength(headers, body)
        case None => None
        case Some(length) => Some((Item(headers, body[..length]), SkipNewlines(body[length..])))
  }

  function ParseItems(strtod: Strtod, text: Bytes): Option<seq<Item>>
    decreases |text|
  {
    if text == [] then Some([])
    else
      match FirstItem(strtod, text)
      case None => None
      case Some(pair) => Cons([pair.0], ParseItems(strtod, pair.1))
  }

  function Cons(items: seq<Item>, rest: Option<seq<Item>>): Option<seq<Item>> {
    if rest.Some? then Some(items + rest.value) else None
  }

  function Deserialize(strtod: Strtod, text: Bytes): Option<Envelope> {
    var n := Newline(text);
    var headers := FromJson(strtod, text[..n]);
    if text == [] || !headers.Object? then None
    else
      match ParseItems(strtod, if n < |text| then text[n + 1..] else [])
      case None => None
      case Some(items) => Some(Envelope(headers, items))
  }

  /** The payload length that the headers of an item give it. */
  method LengthOf(headers: Value, buf: Bytes, ptr: nat) returns (r: Option<nat>)
    requires ptr <= |buf|
    ensures r == PayloadLength(headers, buf[ptr..])
  {
    hide GetByKey, Newline;
    var length := GetByKey(headers, "length");
    if length.Null? {
      return Some(Newline(buf[ptr..]));
    }
    var n := if length.Int? && length.width == Uint64 then AsUint64(length) else AsInt64(length);
    if n < 0 || n >= SIZE_MAX {
      return None;
    }
    if n > 0 && n > |buf| - ptr {
      return None;
    }
    return Some(n);
  }

  /** Moves over line breaks. */
  method SkipFrom(buf: Bytes, start: nat) returns (ptr: nat)
    requires start <= |buf|
    ensures start <= ptr <= |buf| && buf[ptr..] == SkipNewlines(buf[start..])
  {
    ptr := start;
    while ptr < |buf| && buf[ptr] == '\n'
      invariant start <= ptr <= |buf|
      invariant SkipNewlines(buf[start..]) == SkipNewlines(buf[ptr..])
    {
      assert buf[ptr..][1..] == buf[ptr + 1..];
      ptr := ptr + 1;
    }
  }

  /** One round of the parse loop. */
  method ParseItem(strtod: Strtod, buf: Bytes, start: nat) returns (r: Option<Item>, ptr: nat)
    requires start < |buf|
    ensures start < ptr <= |buf|
    ensures match FirstItem(strtod, buf[start..])
            case None => r.None?
            case Some(pair) => r == Some(pair.0) && buf[ptr..] == pair.1
  {
    hide FromJson, SkipNewlines, PayloadLength, Newline;
    ptr := start + 1;
    var headersEnd := start + Newline(buf[start..]);
    if headersEnd == |buf| {
      return None, ptr;
    }
    var headers := FromJson(strtod, buf[start..headersEnd]);
    assert buf[start..][..headersEnd - start] == buf[start..headersEnd];
    if !headers.Object? {
      return None, ptr;
    }
    ptr := headersEnd + 1;
    assert buf[start..][headersEnd - start + 1..] == buf[ptr..];
    var length := LengthOf(headers, buf, ptr);
    if length.None? {
      return None, ptr;
    }
    r := Some(Item(headers, buf[ptr..ptr + length.value]));
    assert buf[ptr..][..length.value] == buf[ptr..ptr + length.value];
    assert buf[ptr..][length.value..] == buf[ptr + length.value..];
    ptr := SkipFrom(buf, ptr + length.value);
  }

  /** The parser: a pointer moves through the buffer, item after item. */
  method DeserializeEnvelope(strtod: Strtod, buf: Bytes) returns (r: Option<Envelope>)
    ensures r == Deserialize(strtod, buf)
  {
    if buf == [] {
      return None;
    }
    hide FromJson, FirstItem;
    var ptr := Newline(buf);
    var headers := FromJson(strtod, buf[..ptr]);
    if !headers.Object? {
      return None;
    }
    if ptr < |buf| {
      ptr := ptr + 1;
    }
    ghost var expected := ParseItems(strtod, buf[ptr..]);
    var items := [];
    assert expected.Some? ==> items + expected.value == expected.value;
    while ptr < |buf|
      invariant ptr <= |buf|
      invariant expected == Cons(items, ParseItems(strtod, buf[ptr..]))
    {
      var item, next := ParseItem(strtod, buf, ptr);
      if item.None? {
        return None;
      }
      ConsTwice(items, [item.value], ParseItems(strtod, buf[next..]));
      items := items + [item.value];
      ptr := next;
    }
    assert buf[ptr..] == [];
    assert items + [] == items;
    return Some(Envelope(headers, items));
  }

  lemma ConsTwice(a: seq<Item>, b: seq<Item>, rest: Option<seq<Item>>)
    ensures Cons(a, Cons(b, rest)) == Cons(a + b, rest)
  {
    if rest.Some? {
      assert a + (b + rest.value) == a + b + rest.value;
    }
  }

  /** A key that was set is found with its new value, also if it was there before, and every other key is
      found as before. */
  lemma {:induction false} SetThenGet(members: seq<Member>, key: Bytes, value: Value, other: Bytes)
    ensures Lookup(SetByKey(members, key, value), other) == if other == key then value else Lookup(members, other)
    ensures |SetByKey(members, key, value)| ==
              |members| + if exists i :: 0 <= i < |members| && members[i].key == key then 0 else 1
  {
    if members != [] && members[0].key != key {
      SetThenGet(members[1..], key, value, other);
      if i :| 0 <= i < |members[1..]| && members[1..][i].key == key {
        assert members[i + 1].key == key;
      }
      if i :| 0 <= i < |members| && members[i].key == key {
        assert members[1..][i - 1].key == key;
      }
    }
  }

  // ------------------------------------------------------------------------- adding

  /** The item that is made for a payload in memory. */
  function AddedItem(kind: Bytes, payload: Bytes): Item {
    Item(Object(SetByKey(SetByKey([], "type", Str(kind)), "length", Int(ToInt32(|payload|), Int32))), payload)
  }

  // --------------------------------------------------------------------- event ids

  /** The event id of an envelope, as the text it is parsed from. */
  function EventId(e: Envelope): Bytes {
    StringHeader(e.headers, "event_id")
  }

  /** The event id of a raw envelope, for which only the first line is parsed. */
  function RawEventId(strtod: Strtod, text: Bytes): Bytes {
    StringHeader(FromJson(strtod, text[..Newline(text)]), "event_id")
  }

  /** What the parser keeps as the event of an item. */
  function RestoredEvent(strtod: Strtod, item: Item): Value {
    var kind := StringHeader(item.headers, "type");
    if item.payload != [] && (kind == "event" || kind == "transaction") then FromJson(strtod, item.payload) else Null
  }
}
