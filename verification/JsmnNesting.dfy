/**
 What the tokenizer accepts (vendor/jsmn.h): in every text that it tokenizes, brackets match and nest,
 and strings are between quotes.
 */
module JsmnNesting {
  import opened Bytes
  import opened JsonReader
  import opened Jsmn

  /** A token that starts before `pos`: a container at its opening bracket, and up to its closing bracket
      if it is closed; a string between its quotes; an unquoted value with at least one byte. */
  predicate TokenOk(js: Bytes, t: Token, pos: nat) {
    && t.end <= pos <= |js|
    && match t.kind
       case ObjectToken => Enclosed(js, t, pos, '{', '}')
       case ArrayToken => Enclosed(js, t, pos, '[', ']')
       case StringToken => 1 <= t.start <= t.end < pos && js[t.start - 1] == '"' && js[t.end] == '"'
       case PrimitiveToken => t.start < t.end
       case Undefined => false
  }

  predicate Enclosed(js: Bytes, t: Token, pos: nat, open: Byte, close: Byte)
    requires pos <= |js|
  {
    && t.start < pos && js[t.start] == open
    && (t.end == -1 || (t.start < t.end - 1 < pos && t.end <= |js| && js[t.end - 1] == close))
  }

  /** Of two tokens the later one starts later, and lies behind the earlier one or inside of it. */
  predicate Nested(a: Token, b: Token) {
    && a.start < b.start
    && (a.end == -1 || a.end <= b.start || (b.end != -1 && b.end <= a.end))
  }

  ghost predicate Nesting(js: Bytes, tokens: seq<Token>, pos: nat) {
    && (forall i :: 0 <= i < |tokens| ==> TokenOk(js, tokens[i], pos))
    && (forall i, j :: 0 <= i < j < |tokens| ==> Nested(tokens[i], tokens[j]))
    && (forall i :: 0 <= i < |tokens| && tokens[i].end == -1 ==> IsContainer(tokens[i]))
  }

  /** Nesting looks at the places and kinds of tokens only. */
  lemma SamePlaces(js: Bytes, a: seq<Token>, b: seq<Token>, pos: nat)
    requires Nesting(js, a, pos) && |a| == |b|
    requires forall i :: 0 <= i < |a| ==> b[i] == a[i].(size := b[i].size)
    ensures Nesting(js, b, pos)
  {
  }

  lemma Later(js: Bytes, tokens: seq<Token>, pos: nat, next: nat)
    requires Nesting(js, tokens, pos) && pos <= next <= |js|
    ensures Nesting(js, tokens, next)
  {
  }

  lemma OneMore(js: Bytes, tokens: seq<Token>, pos: nat, t: Token, next: nat)
    requires Nesting(js, tokens, pos) && pos <= t.start && pos <= next && TokenOk(js, t, next)
    requires t.end == -1 ==> IsContainer(t)
    ensures Nesting(js, tokens + [t], next)
  {
    Later(js, tokens, pos, next);
  }

  lemma BumpKeepsPlaces(tokens: seq<Token>, toksuper: int, i: nat)
    requires i < |tokens|
    ensures Bump(tokens, toksuper)[i] == tokens[i].(size := Bump(tokens, toksuper)[i].size)
  {
  }

  lemma BumpKeeps(js: Bytes, tokens: seq<Token>, toksuper: int, pos: nat)
    requires Nesting(js, tokens, pos)
    ensures Nesting(js, Bump(tokens, toksuper), pos)
  {
    hide Bump, Nesting;
    forall i | 0 <= i < |tokens| ensures Bump(tokens, toksuper)[i]
        == tokens[i].(size := Bump(tokens, toksuper)[i].size) {
      BumpKeepsPlaces(tokens, toksuper, i);
    }
    SamePlaces(js, tokens, Bump(tokens, toksuper), pos);
  }

  /** Behind the last open token all are closed. */
  lemma {:induction false} ClosedBehind(tokens: seq<Token>, j: nat)
    requires LastOpen(tokens) < j < |tokens|
    ensures tokens[j].end != -1
  {
    if j < |tokens| - 1 {
      ClosedBehind(tokens[..|tokens| - 1], j);
    }
  }

  lemma CloseKeeps(js: Bytes, p: Parser, i: nat)
    requires Nesting(js, p.tokens, p.pos) && p.pos < |js| && i == LastOpen(p.tokens)
    requires js[p.pos] == if p.tokens[i].kind == ObjectToken then '}' else ']'
    ensures Nesting(js, Closed(p, i).tokens, p.pos + 1)
  {
    Later(js, p.tokens, p.pos, p.pos + 1);
    forall j | i < j < |p.tokens| ensures p.tokens[j].end != -1 { ClosedBehind(p.tokens, j); }
    hide LastOpen;
    assert TokenOk(js, p.tokens[i], p.pos);
  }

  /** Whatever the text: if it is tokenized, all tokens are closed, brackets match, and tokens nest. */
  lemma {:induction false} ParsedIsNested(js: Bytes, p: Parser, limit: nat)
    requires Valid(js, p) && Nesting(js, p.tokens, p.pos) && Parse(js, p, limit).Done?
    ensures Nesting(js, Parse(js, p, limit).tokens, |js|)
    ensures forall i :: 0 <= i < |Parse(js, p, limit).tokens| ==> Parse(js, p, limit).tokens[i].end != -1
    decreases |js| - p.pos
  {
    hide Nesting;
    if AtEnd(js, p.pos) {
      Later(js, p.tokens, p.pos, |js|);
      forall i | 0 <= i < |p.tokens| ensures p.tokens[i].end != -1 { ClosedBehind(p.tokens, i); }
    } else {
      var c := js[p.pos];
      if c == '{' || c == '[' {
        BumpKeeps(js, p.tokens, p.toksuper, p.pos);
        OneMore(js, Bump(p.tokens, p.toksuper), p.pos,
                Token(if c == '{' then ObjectToken else ArrayToken, p.pos, -1, 0), p.pos + 1);
        ParsedIsNested(js, Opened(p, c), limit);
      } else if c == '}' || c == ']' {
        CloseKeeps(js, p, LastOpen(p.tokens));
        ParsedIsNested(js, Closed(p, LastOpen(p.tokens)), limit);
      } else {
        OthersAreNested(js, p, limit);
      }
    }
  }

  lemma {:induction false} OthersAreNested(js: Bytes, p: Parser, limit: nat)
    requires Valid(js, p) && Nesting(js, p.tokens, p.pos) && Parse(js, p, limit).Done? && !AtEnd(js, p.pos)
    requires js[p.pos] !in ['{', '[', '}', ']']
    ensures Nesting(js, Parse(js, p, limit).tokens, |js|)
    ensures forall i :: 0 <= i < |Parse(js, p, limit).tokens| ==> Parse(js, p, limit).tokens[i].end != -1
    decreases |js| - p.pos, 0
  {
    hide Nesting;
    var c := js[p.pos];
    Later(js, p.tokens, p.pos, p.pos + 1);
    if c == '"' {
      var end := StringEnd(js, p.pos + 1).value;
      EndsAtQuote(js, p.pos + 1);
      Pushed(js, p, Token(StringToken, p.pos + 1, end, 0), end + 1);
      ParsedIsNested(js, Added(p, Token(StringToken, p.pos + 1, end, 0), end + 1), limit);
    } else if IsSpace(c) {
      ParsedIsNested(js, p.(pos := p.pos + 1), limit);
    } else if c == ':' {
      ParsedIsNested(js, p.(pos := p.pos + 1, toksuper := |p.tokens| - 1), limit);
    } else if c == ',' {
      ParsedIsNested(js, AfterComma(p), limit);
    } else {
      var end := PrimitiveEnd(js, p.pos).value;
      Pushed(js, p, Token(PrimitiveToken, p.pos, end, 0), end);
      ParsedIsNested(js, Added(p, Token(PrimitiveToken, p.pos, end, 0), end), limit);
    }
  }

  lemma Pushed(js: Bytes, p: Parser, t: Token, next: nat)
    requires Nesting(js, p.tokens, p.pos) && p.pos <= t.start && p.pos <= next && TokenOk(js, t, next)
    requires t.end == -1 ==> IsContainer(t)
    ensures Nesting(js, Added(p, t, next).tokens, next)
  {
    hide Nesting, TokenOk;
    OneMore(js, p.tokens, p.pos, t, next);
    BumpKeeps(js, p.tokens + [t], p.toksuper, next);
  }

  lemma {:induction false} EndsAtQuote(js: Bytes, pos: nat)
    requires pos <= |js| && StringEnd(js, pos).Some?
    ensures js[StringEnd(js, pos).value] == '"'
    decreases |js| - pos
  {
    if js[pos] != '"' {
      if js[pos] == '\\' && pos + 1 < |js| {
        if js[pos + 1] == 'u' {
          EndsAtQuote(js, SkipHex(js, pos + 2, 4).value);
        } else {
          EndsAtQuote(js, pos + 2);
        }
      } else {
        EndsAtQuote(js, pos + 1);
      }
    }
  }

  /** Whatever the text: if it is tokenized, every token is closed, a container is between its own
      brackets, a string between quotes, and of two tokens the later one lies behind the earlier one
      or inside of it. */
  lemma {:induction false} AcceptedIsNested(js: Bytes, limit: nat)
    requires Parse(js, Parser(0, [], -1), limit).Done?
    ensures var tokens := Parse(js, Parser(0, [], -1), limit).tokens;
            && Nesting(js, tokens, |js|)
            && forall i :: 0 <= i < |tokens| ==> tokens[i].end != -1
  {
    ParsedIsNested(js, Parser(0, [], -1), limit);
  }
}
