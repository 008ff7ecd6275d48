/** The tokenizer turns the text of a value into the tokens of that value. */
module JsonTokenize {
  import opened Prelude
  import opened Bytes
  import opened JsonString
  import opened Json
  import opened JsonReader
  import opened JsonRebuild
  import opened Jsmn

  // ------------------------------------------------------------------------- scanning

  lemma {:induction false} EscapedByteIsSkipped(js: Bytes, pos: nat, c: Byte)
    requires At(js, pos, EscapeByte(c)) && pos + |EscapeByte(c)| < |js|
    ensures StringEnd(js, pos) == StringEnd(js, pos + |EscapeByte(c)|)
  {
    var e := EscapeByte(c);
    assert forall k :: 0 <= k < |e| ==> js[pos + k] == js[pos..pos + |e|][k] == e[k];
    assert js[pos] == e[0];
    if |e| == 2 {
      assert js[pos + 1] == e[1];
    } else if |e| == 6 {
      assert js[pos + 1] == e[1];
      assert e[2] == '0' && e[3] == '0' && e[4] == HexDigit(c as int / 16) && e[5] == HexDigit(c as int % 16);
      assert js[pos + 2] == e[2] && js[pos + 3] == e[3] && js[pos + 4] == e[4] && js[pos + 5] == e[5];
      HexIsSkipped(js, pos + 2);
    }
  }

  lemma HexIsSkipped(js: Bytes, pos: nat)
    requires pos + 4 <= |js|
    requires HexValue(js[pos]).Some? && HexValue(js[pos + 1]).Some?
    requires HexValue(js[pos + 2]).Some? && HexValue(js[pos + 3]).Some?
    ensures SkipHex(js, pos, 4) == Some(pos + 4)
  {
    assert SkipHex(js, pos + 3, 1) == Some(pos + 4);
    assert SkipHex(js, pos + 2, 2) == Some(pos + 4);
    assert SkipHex(js, pos + 1, 3) == Some(pos + 4);
  }

  /** The closing quote is found behind the escaped text. */
  lemma {:induction false} EscapedIsSkipped(js: Bytes, pos: nat, s: Bytes)
    requires At(js, pos, Escape(s) + "\"")
    ensures StringEnd(js, pos) == Some(pos + |Escape(s)|)
    decreases |s|
  {
    hide At, StringEnd, EscapeByte;
    if s == [] {
      assert Escape(s) + "\"" == "\"";
      QuoteEnds(js, pos);
    } else {
      var e, rest := EscapeByte(s[0]), Escape(s[1..]) + "\"";
      assert Escape(s) + "\"" == e + rest;
      AtAppend(js, pos, e, rest);
      EscapedIsSkipped(js, pos + |e|, s[1..]);
      AtFits(js, pos + |e|, rest);
      EscapedByteIsSkipped(js, pos, s[0]);
    }
  }

  lemma QuoteEnds(js: Bytes, pos: nat)
    requires At(js, pos, "\"")
    ensures StringEnd(js, pos) == Some(pos)
  {
    assert js[pos..pos + 1][0] == js[pos];
  }

  lemma AtFits(js: Bytes, pos: nat, text: Bytes)
    requires At(js, pos, text)
    ensures pos + |text| <= |js|
    ensures text != [] ==> js[pos] == text[0]
  {
    if text != [] {
      assert js[pos..pos + |text|][0] == js[pos];
    }
  }

  /** What may come behind a value. */
  predicate Delimited(js: Bytes, pos: nat) {
    pos <= |js| && (pos == |js| || js[pos] == ',' || js[pos] == ']' || js[pos] == '}')
  }

  lemma {:induction false} PlainIsSkipped(js: Bytes, pos: nat, end: nat)
    requires pos <= end && Delimited(js, end)
    requires forall i :: pos <= i < end ==> PlainByte(js[i])
    ensures PrimitiveEnd(js, pos) == Some(end)
    decreases end - pos
  {
    if pos < end {
      PlainIsSkipped(js, pos + 1, end);
    }
  }

  predicate IsPrimitive(v: Value) {
    v.Null? || v.Bool? || v.Int? || v.Real?
  }

  lemma PrimitiveIsPlain(show: Show, v: Value)
    requires Canonical(v) && IsPrimitive(v)
    ensures Print(show, v) != [] && Print(show, v)[0] !in ['{', '[', '"']
    ensures forall i :: 0 <= i < |Print(show, v)| ==> PlainByte(Print(show, v)[i])
  {
    if v.Int? {
      var abs := if v.n < 0 then -v.n else v.n;
      var d := Decimal(abs);
      hide Decimal;
      forall i | 0 <= i < |d| ensures PlainByte(d[i]) && d[i] !in ['{', '[', '"'] { assert IsDigit(d[i]); }
    }
  }

  // --------------------------------------------------------------------------- tokens

  predicate AllClosed(tokens: seq<Token>) {
    forall i :: 0 <= i < |tokens| ==> tokens[i].end != -1
  }

  lemma WithinIsClosed(tokens: seq<Token>, pos: nat, end: nat)
    requires Within(tokens, pos, end)
    ensures AllClosed(tokens)
  {
    forall i | 0 <= i < |tokens| ensures tokens[i].end != -1 { assert TokenWithin(tokens[i], pos, end); }
  }

  lemma {:induction false} LastOpenBefore(a: seq<Token>, b: seq<Token>)
    requires AllClosed(b)
    ensures LastOpen(a + b) == LastOpen(a) && LastOpenContainer(a + b) == LastOpenContainer(a)
  {
    if b == [] {
      assert a + b == a;
    } else {
      var k := |b| - 1;
      assert (a + b)[..|a| + k] == a + b[..k];
      LastOpenBefore(a, b[..k]);
    }
  }

  lemma LastOpenIsNew(a: seq<Token>, t: Token, b: seq<Token>)
    requires AllClosed(b) && t.end == -1 && IsContainer(t)
    ensures LastOpen(a + [t] + b) == |a| && LastOpenContainer(a + [t] + b) == |a|
  {
    LastOpenBefore(a + [t], b);
  }

  lemma {:induction false} LastOpenOfBumped(tokens: seq<Token>, toksuper: int)
    ensures LastOpen(Bump(tokens, toksuper)) == LastOpen(tokens)
  {
    if tokens != [] {
      var k := |tokens| - 1;
      assert toksuper != k ==> Bump(tokens, toksuper)[..k] == Bump(tokens[..k], toksuper);
      assert toksuper == k ==> Bump(tokens, toksuper)[..k] == tokens[..k];
      LastOpenOfBumped(tokens[..k], toksuper);
    }
  }

  lemma BumpInside(a: seq<Token>, t: Token, b: seq<Token>)
    ensures Bump(a + [t] + b, |a|) == a + [t.(size := t.size + 1)] + b
  {
  }

  lemma BumpBefore(a: seq<Token>, b: seq<Token>, toksuper: int)
    requires toksuper < |a|
    ensures Bump(a + b, toksuper) == Bump(a, toksuper) + b
  {
  }

  // ---------------------------------------------------------------------------- steps

  lemma StepOpen(js: Bytes, p: Parser, limit: nat)
    requires Valid(js, p) && p.pos < |js| && (js[p.pos] == '[' || js[p.pos] == '{') && |p.tokens| < limit
    ensures Valid(js, Opened(p, js[p.pos])) && Parse(js, p, limit) == Parse(js, Opened(p, js[p.pos]), limit)
  {
  }

  lemma StepClose(js: Bytes, p: Parser, limit: nat, i: nat)
    requires Valid(js, p) && p.pos < |js| && (js[p.pos] == ']' || js[p.pos] == '}')
    requires i < |p.tokens| && LastOpen(p.tokens) == i
    requires p.tokens[i].kind == if js[p.pos] == '}' then ObjectToken else ArrayToken
    ensures Valid(js, Closed(p, i)) && Parse(js, p, limit) == Parse(js, Closed(p, i), limit)
  {
  }

  lemma StepString(js: Bytes, p: Parser, limit: nat, end: nat)
    requires Valid(js, p) && p.pos < |js| && js[p.pos] == '"' && |p.tokens| < limit
    requires StringEnd(js, p.pos + 1) == Some(end)
    ensures var p' := Added(p, Token(StringToken, p.pos + 1, end, 0), end + 1);
            Valid(js, p') && Parse(js, p, limit) == Parse(js, p', limit)
  {
    hide StringEnd;
  }

  lemma StepPrimitive(js: Bytes, p: Parser, limit: nat, end: nat)
    requires Valid(js, p) && p.pos < |js| && |p.tokens| < limit
    requires PlainByte(js[p.pos]) && js[p.pos] !in ['{', '[', '"']
    requires PrimitiveEnd(js, p.pos) == Some(end)
    ensures var p' := Added(p, Token(PrimitiveToken, p.pos, end, 0), end);
            Valid(js, p') && Parse(js, p, limit) == Parse(js, p', limit)
  {
    hide PrimitiveEnd;
  }

  lemma StepColon(js: Bytes, p: Parser, limit: nat)
    requires Valid(js, p) && p.pos < |js| && js[p.pos] == ':'
    ensures var p' := p.(pos := p.pos + 1, toksuper := |p.tokens| - 1);
            Valid(js, p') && Parse(js, p, limit) == Parse(js, p', limit)
  {
  }

  lemma StepComma(js: Bytes, p: Parser, limit: nat)
    requires Valid(js, p) && p.pos < |js| && js[p.pos] == ','
    ensures Valid(js, AfterComma(p)) && Parse(js, p, limit) == Parse(js, AfterComma(p), limit)
  {
  }

  // --------------------------------------------------------------------------- values

  /** The tokenizer goes from `p` to `q`. */
  predicate Leads(js: Bytes, limit: nat, p: Parser, q: Parser) {
    Valid(js, p) && Valid(js, q) && Parse(js, p, limit) == Parse(js, q, limit)
  }

  predicate HoldsOthers(v: Value) {
    v.List? || v.Object?
  }

  /** Where the tokenizer stands behind the text of `v`. */
  function After(show: Show, p: Parser, v: Value): Parser {
    Parser(p.pos + |Print(show, v)|, Bump(p.tokens, p.toksuper) + TokensOf(show, v, p.pos),
           if HoldsOthers(v) then LastOpen(p.tokens) else p.toksuper)
  }

  lemma OnePrimitiveToken(show: Show, v: Value, pos: nat)
    requires IsPrimitive(v)
    ensures TokensOf(show, v, pos) == [Token(PrimitiveToken, pos, pos + |Print(show, v)|, 0)]
  {
  }

  lemma ScansPrimitive(show: Show, v: Value, js: Bytes, p: Parser, limit: nat)
    requires Canonical(v) && IsPrimitive(v) && Valid(js, p) && |p.tokens| < limit
    requires At(js, p.pos, Print(show, v)) && Delimited(js, p.pos + |Print(show, v)|)
    ensures Leads(js, limit, p, After(show, p, v))
  {
    hide Parse, PrimitiveEnd, AllPlaced, Print, TokensOf, Canonical;
    var text := Print(show, v);
    var end := p.pos + |text|;
    PrimitiveIsPlain(show, v);
    OnePrimitiveToken(show, v, p.pos);
    forall i | p.pos <= i < end ensures PlainByte(js[i]) {
      assert js[i] == js[p.pos..end][i - p.pos] == text[i - p.pos];
    }
    assert js[p.pos] == js[p.pos..end][0] == text[0];
    PlainIsSkipped(js, p.pos, end);
    StepPrimitive(js, p, limit, end);
    BumpBefore(p.tokens, [Token(PrimitiveToken, p.pos, end, 0)], p.toksuper);
  }

  /** A quoted string adds its token, with no item of its own yet. */
  lemma ScansQuoted(s: Bytes, js: Bytes, p: Parser, limit: nat)
    requires Valid(js, p) && |p.tokens| < limit && At(js, p.pos, Quote(s))
    ensures Leads(js, limit, p, Parser(p.pos + |Quote(s)|,
                                       Bump(p.tokens, p.toksuper)
                                       + [Token(StringToken, p.pos + 1, p.pos + |Quote(s)| - 1, 0)],
                                       p.toksuper))
  {
    hide Escape, Parse, StringEnd, AllPlaced, At;
    assert Quote(s) == "\"" + (Escape(s) + "\"");
    AtAppend(js, p.pos, "\"", Escape(s) + "\"");
    AtFits(js, p.pos, Quote(s));
    EscapedIsSkipped(js, p.pos + 1, s);
    StepString(js, p, limit, p.pos + 1 + |Escape(s)|);
    BumpBefore(p.tokens, [Token(StringToken, p.pos + 1, p.pos + |Quote(s)| - 1, 0)], p.toksuper);
  }
}
