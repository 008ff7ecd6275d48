/**
 The tokenizer that reading JSON starts with (vendor/jsmn.h, as the SDK compiles it: not strict
 and without parent links), as functions of the text.

 `toksuper` is the index of the token that the next one belongs to, or -1.
 */
module Jsmn {
  import opened Prelude
  import opened Bytes
  import opened Json
  import opened JsonReader

  datatype Parser = Parser(pos: nat, tokens: seq<Token>, toksuper: int)

  datatype Result = Error | Done(tokens: seq<Token>)

  // ------------------------------------------------------------------------ scanning

  predicate AtEnd(js: Bytes, pos: nat) {
    pos >= |js| || js[pos] == NUL
  }

  predicate IsSpace(c: Byte) {
    c == '\t' || c == '\r' || c == '\n' || c == ' '
  }

  predicate EndsPrimitive(c: Byte) {
    IsSpace(c) || c == ':' || c == ',' || c == ']' || c == '}'
  }

  /** The end of the unquoted value around `pos`. */
  function PrimitiveEnd(js: Bytes, pos: nat): (r: Option<nat>)
    requires pos <= |js|
    ensures r.Some? ==> pos <= r.value <= |js|
    ensures r.Some? && pos < |js| && js[pos] != NUL && !EndsPrimitive(js[pos]) ==> pos < r.value
    decreases |js| - pos
  {
    if AtEnd(js, pos) || EndsPrimitive(js[pos]) then Some(pos)
    else if js[pos] as int < 32 || js[pos] as int >= 127 then None
    else PrimitiveEnd(js, pos + 1)
  }

  /** Skips at most `left` hexadecimal digits; anything else but the end of the text is an error. */
  function SkipHex(js: Bytes, pos: nat, left: nat): (r: Option<nat>)
    requires pos <= |js|
    ensures r.Some? ==> pos <= r.value <= |js|
    decreases left
  {
    if left == 0 || AtEnd(js, pos) then Some(pos)
    else if HexValue(js[pos]).None? then None
    else SkipHex(js, pos + 1, left - 1)
  }

  /** The place of the closing quote. */
  function StringEnd(js: Bytes, pos: nat): (r: Option<nat>)
    requires pos <= |js|
    ensures r.Some? ==> pos <= r.value < |js|
    decreases |js| - pos
  {
    if AtEnd(js, pos) then None
    else if js[pos] == '"' then Some(pos)
    else if js[pos] == '\\' && pos + 1 < |js| then
      var e := js[pos + 1];
      if e in ['"', '/', '\\', 'b', 'f', 'r', 'n', 't'] then StringEnd(js, pos + 2)
      else if e == 'u' then
        (match SkipHex(js, pos + 2, 4)
         case Some(next) => StringEnd(js, next)
         case None => None)
      else None
    else StringEnd(js, pos + 1)
  }

  // -------------------------------------------------------------------------- tokens

  predicate IsContainer(t: Token) {
    t.kind.ArrayToken? || t.kind.ObjectToken?
  }

  /** The last token that is still open, or -1. */
  function LastOpen(tokens: seq<Token>): (r: int)
    ensures -1 <= r < |tokens|
    ensures r >= 0 ==> tokens[r].end == -1
  {
    if tokens == [] then -1
    else if tokens[|tokens| - 1].end == -1 then |tokens| - 1
    else LastOpen(tokens[..|tokens| - 1])
  }

  function LastOpenContainer(tokens: seq<Token>): (r: int)
    ensures -1 <= r < |tokens|
  {
    if tokens == [] then -1
    else if IsContainer(tokens[|tokens| - 1]) && tokens[|tokens| - 1].end == -1 then |tokens| - 1
    else LastOpenContainer(tokens[..|tokens| - 1])
  }

  /** One more item for the token it belongs to. */
  function Bump(tokens: seq<Token>, toksuper: int): (r: seq<Token>)
    ensures |r| == |tokens|
  {
    if 0 <= toksuper < |tokens| then tokens[toksuper := tokens[toksuper].(size := tokens[toksuper].size + 1)]
    else tokens
  }

  predicate Valid(js: Bytes, p: Parser) {
    p.pos <= |js| && -1 <= p.toksuper < |p.tokens| && AllPlaced(p.tokens, js)
  }

  function Opened(p: Parser, c: Byte): Parser {
    var kind := if c == '{' then ObjectToken else ArrayToken;
    Parser(p.pos + 1, Bump(p.tokens, p.toksuper) + [Token(kind, p.pos, -1, 0)], |p.tokens|)
  }

  /** `i` is the token that a closing bracket closes. */
  function Closed(p: Parser, i: nat): Parser
    requires i < |p.tokens|
  {
    Parser(p.pos + 1, p.tokens[i := p.tokens[i].(end := p.pos + 1)], LastOpen(p.tokens[..i]))
  }

  /** A string or an unquoted value was read. */
  function Added(p: Parser, t: Token, next: nat): Parser {
    Parser(next, Bump(p.tokens + [t], p.toksuper), p.toksuper)
  }

  function AfterComma(p: Parser): Parser {
    if p.toksuper >= 0 && p.toksuper < |p.tokens| && !IsContainer(p.tokens[p.toksuper])
       && LastOpenContainer(p.tokens) >= 0
    then p.(pos := p.pos + 1, toksuper := LastOpenContainer(p.tokens))
    else p.(pos := p.pos + 1)
  }

  function Parse(js: Bytes, p: Parser, limit: nat): (r: Result)
    requires Valid(js, p)
    ensures r.Done? ==> AllPlaced(r.tokens, js)
    decreases |js| - p.pos
  {
    if AtEnd(js, p.pos) then
      if LastOpen(p.tokens) >= 0 then Error else Done(p.tokens)
    else
      var c := js[p.pos];
      if c == '{' || c == '[' then
        if |p.tokens| >= limit then Error else Parse(js, Opened(p, c), limit)
      else if c == '}' || c == ']' then
        var i := LastOpen(p.tokens);
        if i < 0 || p.tokens[i].kind != (if c == '}' then ObjectToken else ArrayToken) then Error
        else Parse(js, Closed(p, i), limit)
      else if c == '"' then
        match StringEnd(js, p.pos + 1)
        case None => Error
        case Some(end) =>
          if |p.tokens| >= limit then Error
          else Parse(js, Added(p, Token(StringToken, p.pos + 1, end, 0), end + 1), limit)
      else if IsSpace(c) then Parse(js, p.(pos := p.pos + 1), limit)
      else if c == ':' then Parse(js, p.(pos := p.pos + 1, toksuper := |p.tokens| - 1), limit)
      else if c == ',' then Parse(js, AfterComma(p), limit)
      else
        match PrimitiveEnd(js, p.pos)
        case None => Error
        case Some(end) =>
          if |p.tokens| >= limit then Error
          else Parse(js, Added(p, Token(PrimitiveToken, p.pos, end, 0), end), limit)
  }

  /** The first pass, which only counts. */
  function Count(js: Bytes, pos: nat): Option<nat>
    requires pos <= |js|
    decreases |js| - pos
  {
    if AtEnd(js, pos) then Some(0)
    else
      var c := js[pos];
      if c == '{' || c == '[' then More(Count(js, pos + 1))
      else if c == '}' || c == ']' || IsSpace(c) || c == ':' || c == ',' then Count(js, pos + 1)
      else if c == '"' then
        (match StringEnd(js, pos + 1) case None => None case Some(end) => More(Count(js, end + 1)))
      else
        (match PrimitiveEnd(js, pos) case None => None case Some(end) => More(Count(js, end)))
  }

  function More(n: Option<nat>): Option<nat> {
    if n.Some? then Some(n.value + 1) else None
  }

  /** The value that a JSON text stands for, and null for a text that is none. */
  function FromJson(strtod: Strtod, js: Bytes): Value {
    match Count(js, 0)
    case None => Null
    case Some(count) =>
      if count == 0 then Null
      else
        match Parse(js, Parser(0, [], -1), count)
        case Error => Null
        case Done(tokens) =>
          var r := Read(strtod, tokens, js, 0, 0);
          if r.Parsed? && r.next == |tokens| then r.value else Null
  }
}
