/**
 Rebuilding a value from the tokens of its text (src/sentry_json.c).

 Tokens come in preorder; a container token says how many items, or how many keys, belong to
 it.  `Read` is the recursive reader with its running offset.
 */
module JsonReader {
  import opened Prelude
  import opened Bytes
  import opened JsonString
  import opened Json

  datatype Kind = Undefined | ObjectToken | ArrayToken | StringToken | PrimitiveToken

  /** A token; `end` is -1 while its container is open. */
  datatype Token = Token(kind: Kind, start: nat, end: int, size: nat)

  // --------------------------------------------------------------------- numbers

  /** The integer that the whole text spells, if it spells one that fits 64 bits. */
  function ReadInt(s: Bytes): (r: Option<int>)
    ensures r.Some? ==> INT64_MIN <= r.value <= UINT64_MAX
  {
    if s == [] then None
    else if s[0] == '-' then
      if AllDigits(s[1..]) && Number(s[1..]) <= -INT64_MIN then Some(0 - Number(s[1..])) else None
    else
      var digits := if s[0] == '+' then s[1..] else s;
      if AllDigits(digits) && Number(digits) <= UINT64_MAX then Some(Number(digits)) else None
  }

  function ReadPrimitive(strtod: Strtod, s: Bytes): Value
    requires s != []
  {
    if s[0] == 't' then Bool(true)
    else if s[0] == 'f' then Bool(false)
    else if s[0] == 'n' then Null
    else match ReadInt(s) case Some(n) => Int(n, Narrowest(n)) case None => Real(strtod(s))
  }

  // --------------------------------------------------------------------- strings

  /** The text up to the first zero byte, as the string functions of C see it. */
  function CString(s: Bytes): Bytes {
    if s == [] || s[0] == NUL then [] else [s[0]] + CString(s[1..])
  }

  function ReadString(s: Bytes): Value {
    match Decode(CString(s)) case Some(t) => Str(t) case None => Null
  }

  /** Sets a key of an object: in its place if it is there already, at the end otherwise. */
  function SetByKey(members: seq<Member>, key: Bytes, value: Value): seq<Member> {
    if members == [] then [Member(key, value)]
    else if members[0].key == key then [Member(key, value)] + members[1..]
    else [members[0]] + SetByKey(members[1..], key, value)
  }

  /** A key that cannot be decoded is dropped with its value. */
  function SetMember(members: seq<Member>, key: Bytes, value: Value): seq<Member> {
    match Decode(CString(key))
    case Some(k) => SetByKey(members, CString(k), value)
    case None => members
  }

  // -------------------------------------------------------------------- the reader

  datatype Parsed = Failed | Parsed(value: Value, next: nat)

  predicate WellPlaced(t: Token, buf: Bytes) {
    && (t.kind.StringToken? ==> t.start <= t.end <= |buf|)
    && (t.kind.PrimitiveToken? ==> t.start < t.end <= |buf|)
  }

  predicate AllPlaced(tokens: seq<Token>, buf: Bytes) {
    forall i :: 0 <= i < |tokens| ==> WellPlaced(tokens[i], buf)
  }

  function Read(strtod: Strtod, tokens: seq<Token>, buf: Bytes, offset: nat, depth: nat): (r: Parsed)
    requires offset <= |tokens| && AllPlaced(tokens, buf)
    ensures r.Parsed? ==> offset < r.next <= |tokens|
    decreases |tokens| - offset, 0
  {
    if offset == |tokens| then Failed
    else
      var root := tokens[offset];
      assert WellPlaced(root, buf);
      match root.kind
      case PrimitiveToken => Parsed(ReadPrimitive(strtod, buf[root.start..root.end]), offset + 1)
      case StringToken => Parsed(ReadString(buf[root.start..root.end]), offset + 1)
      case ObjectToken =>
        if depth >= MAX_DEPTH then Failed else ReadMembers(strtod, tokens, buf, offset + 1, depth, root.size, [])
      case ArrayToken =>
        if depth >= MAX_DEPTH then Failed else ReadItems(strtod, tokens, buf, offset + 1, depth, root.size, [])
      case Undefined => Parsed(Null, offset + 1)
  }

  function ReadItems(strtod: Strtod, tokens: seq<Token>, buf: Bytes, offset: nat, depth: nat, left: nat,
      items: seq<Value>): (r: Parsed)
    requires offset <= |tokens| && AllPlaced(tokens, buf)
    ensures r.Parsed? ==> offset <= r.next <= |tokens|
    decreases |tokens| - offset, 1
  {
    if left == 0 then Parsed(List(items), offset)
    else
      match Read(strtod, tokens, buf, offset, depth + 1)
      case Failed => Failed
      case Parsed(v, next) => ReadItems(strtod, tokens, buf, next, depth, left - 1, items + [v])
  }

  function ReadMembers(strtod: Strtod, tokens: seq<Token>, buf: Bytes, offset: nat, depth: nat, left: nat,
      members: seq<Member>)
    : (r: Parsed)
    requires offset <= |tokens| && AllPlaced(tokens, buf)
    ensures r.Parsed? ==> offset <= r.next <= |tokens|
    decreases |tokens| - offset, 1
  {
    if left == 0 then Parsed(Object(members), offset)
    else if offset == |tokens| || tokens[offset].kind != StringToken then Failed
    else
      var key := tokens[offset];
      assert WellPlaced(key, buf);
      match Read(strtod, tokens, buf, offset + 1, depth + 1)
      case Failed => Failed
      case Parsed(v, next) =>
        ReadMembers(strtod, tokens, buf, next, depth, left - 1, SetMember(members, buf[key.start..key.end], v))
  }

  /** The reader, with its loops over the children of a container. */
  method TokensToValue(strtod: Strtod, tokens: seq<Token>, buf: Bytes, start: nat, depth: nat) returns (r: Parsed)
    requires start <= |tokens| && AllPlaced(tokens, buf)
    ensures r == Read(strtod, tokens, buf, start, depth)
    decreases |tokens| - start, 0
  {
    if start == |tokens| {
      return Failed;
    }
    var root := tokens[start];
    assert WellPlaced(root, buf);
    match root.kind
    case PrimitiveToken => return Parsed(ReadPrimitive(strtod, buf[root.start..root.end]), start + 1);
    case StringToken => return Parsed(ReadString(buf[root.start..root.end]), start + 1);
    case ObjectToken =>
      if depth >= MAX_DEPTH {
        return Failed;
      }
      r := ObjectOf(strtod, tokens, buf, start + 1, depth, root.size);
    case ArrayToken =>
      if depth >= MAX_DEPTH {
        return Failed;
      }
      r := ListOf(strtod, tokens, buf, start + 1, depth, root.size);
    case Undefined => return Parsed(Null, start + 1);
  }

  method ObjectOf(strtod: Strtod, tokens: seq<Token>, buf: Bytes, start: nat, depth: nat, size: nat) returns (r: Parsed)
    requires start <= |tokens| && AllPlaced(tokens, buf)
    ensures r == ReadMembers(strtod, tokens, buf, start, depth, size, [])
    decreases |tokens| - start, 1
  {
    hide Read, SetMember;
    var offset, members := start, [];
    for i := 0 to size
      invariant start <= offset <= |tokens|
      invariant ReadMembers(strtod, tokens, buf, start, depth, size, []) ==
                ReadMembers(strtod, tokens, buf, offset, depth, size - i, members)
    {
      if offset == |tokens| || tokens[offset].kind != StringToken {
        return Failed;
      }
      var key := tokens[offset];
      assert WellPlaced(key, buf);
      offset := offset + 1;
      var child := TokensToValue(strtod, tokens, buf, offset, depth + 1);
      if child.Failed? {
        return Failed;
      }
      offset := child.next;
      members := SetMember(members, buf[key.start..key.end], child.value);
    }
    return Parsed(Object(members), offset);
  }

  method ListOf(strtod: Strtod, tokens: seq<Token>, buf: Bytes, start: nat, depth: nat, size: nat) returns (r: Parsed)
    requires start <= |tokens| && AllPlaced(tokens, buf)
    ensures r == ReadItems(strtod, tokens, buf, start, depth, size, [])
    decreases |tokens| - start, 1
  {
    hide Read, AllPlaced;
    var offset, items := start, [];
    for i := 0 to size
      invariant start <= offset <= |tokens|
      invariant ReadItems(strtod, tokens, buf, start, depth, size, []) ==
                ReadItems(strtod, tokens, buf, offset, depth, size - i, items)
    {
      var child := TokensToValue(strtod, tokens, buf, offset, depth + 1);
      if child.Failed? {
        return Failed;
      }
      offset := child.next;
      items := items + [child.value];
    }
    return Parsed(List(items), offset);
  }

  // ------------------------------------------------------------- tokens of a tree

  /** The tokens, in preorder, of the text of `v` at position `pos`. */
  function TokensOf(show: Show, v: Value, pos: nat): seq<Token> {
    match v
    case Str(s) => [Token(StringToken, pos + 1, pos + |Quote(s)| - 1, 0)]
    case List(items) => [Token(ArrayToken, pos, pos + |Print(show, v)|, |items|)] + TokensOfItems(show, items, pos + 1)
    case Object(members) => [Token(ObjectToken, pos, pos + |Print(show, v)|, |members|)]
        + TokensOfMembers(show, members, pos + 1)
    case _ => [Token(PrimitiveToken, pos, pos + |Print(show, v)|, 0)]
  }

  function TokensOfItems(show: Show, items: seq<Value>, pos: nat): seq<Token> {
    if items == [] then []
    else
      var front := items[..|items| - 1];
      TokensOfItems(show, front, pos)
      + TokensOf(show, items[|items| - 1], pos + |PrintItems(show, front)| + |Separator(|front|)|)
  }

  function TokensOfMember(show: Show, m: Member, pos: nat): seq<Token> {
    [Token(StringToken, pos + 1, pos + |Quote(m.key)| - 1, 1)] + TokensOf(show, m.value, pos + |Quote(m.key)| + 1)
  }

  function TokensOfMembers(show: Show, members: seq<Member>, pos: nat): seq<Token> {
    if members == [] then []
    else
      var front := members[..|members| - 1];
      TokensOfMembers(show, front, pos)
      + TokensOfMember(show, members[|members| - 1], pos + |PrintMembers(show, front)| + |Separator(|front|)|)
  }
}
