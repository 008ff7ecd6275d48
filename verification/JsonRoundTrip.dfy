/** Writing a value and reading the text again, from end to end. */
module JsonRoundTrip {
  import opened Prelude
  import opened Bytes
  import opened Json
  import opened JsonReader
  import opened JsonRebuild
  import opened Jsmn
  import opened JsonTokenize
  import opened JsonTokenizeTrees
  import JsonWriter

  // ------------------------------------------------------------------------- counting

  /** The counting pass finds as many tokens as the second pass makes. */
  lemma {:induction false} CountAgrees(js: Bytes, p: Parser, limit: nat)
    requires Valid(js, p) && Parse(js, p, limit).Done?
    ensures var n := |Parse(js, p, limit).tokens|;
            |p.tokens| <= n && Count(js, p.pos) == Some(n - |p.tokens|)
    decreases |js| - p.pos
  {
    hide StringEnd, PrimitiveEnd, LastOpen, LastOpenContainer, AllPlaced;
    if !AtEnd(js, p.pos) {
      var next := NextState(js, p, limit);
      CountAgrees(js, next, limit);
    }
  }

  /** The state after the next character, string or unquoted value. */
  function NextState(js: Bytes, p: Parser, limit: nat): (q: Parser)
    requires Valid(js, p) && Parse(js, p, limit).Done? && !AtEnd(js, p.pos)
    ensures Valid(js, q) && p.pos < q.pos && Parse(js, p, limit) == Parse(js, q, limit)
  {
    var c := js[p.pos];
    if c == '{' || c == '[' then Opened(p, c)
    else if c == '}' || c == ']' then Jsmn.Closed(p, LastOpen(p.tokens))
    else if c == '"' then
      var end := StringEnd(js, p.pos + 1).value;
      Added(p, Token(StringToken, p.pos + 1, end, 0), end + 1)
    else if IsSpace(c) then p.(pos := p.pos + 1)
    else if c == ':' then p.(pos := p.pos + 1, toksuper := |p.tokens| - 1)
    else if c == ',' then AfterComma(p)
    else
      var end := PrimitiveEnd(js, p.pos).value;
      Added(p, Token(PrimitiveToken, p.pos, end, 0), end)
  }

  // ------------------------------------------------------------------------ documents

  /** The text of a value gives the tokens of the value. */
  lemma {:induction false} TokenizesDocument(show: Show, v: Value)
    requires Canonical(v)
    ensures Parse(Print(show, v), Parser(0, [], -1), |TokensOf(show, v, 0)|) == Done(TokensOf(show, v, 0))
  {
    hide Canonical, Print, TokensOf, At, Parse, Within, AllClosed, LastOpen;
    var js, p, limit := Print(show, v), Parser(0, [], -1), |TokensOf(show, v, 0)|;
    TextIsThere(js);
    ScansValue(show, v, js, p, limit);
    var q := After(show, p, v);
    assert q.tokens == TokensOf(show, v, 0);
    TokensWithin(show, v, 0);
    WithinIsClosed(q.tokens, 0, |js|);
    LastOpenBefore([], q.tokens);
    assert [] + q.tokens == q.tokens;
    NothingOpen();
    EndOfText(js, q, limit);
  }

  lemma NothingOpen()
    ensures LastOpen([]) == -1
  {
  }

  lemma EndOfText(js: Bytes, q: Parser, limit: nat)
    requires Valid(js, q) && q.pos == |js| && LastOpen(q.tokens) == -1
    ensures Parse(js, q, limit) == Done(q.tokens)
  {
  }

  lemma TextIsThere(js: Bytes)
    ensures At(js, 0, js)
  {
  }

  lemma SomeTokens(show: Show, v: Value)
    ensures |TokensOf(show, v, 0)| > 0
  {
  }

  /** Reading the text of a value gives back the value, with its numbers reread, if containers nest
      at most 64 deep; otherwise it gives null. */
  lemma {:induction false} ParsesDocument(show: Show, strtod: Strtod, v: Value)
    requires Canonical(v)
    ensures FromJson(strtod, Print(show, v)) == if Height(v, 0) <= MAX_DEPTH then Reread(show, strtod, v) else Null
  {
    hide Canonical, Print, TokensOf, Parse, Count, Read, Height, Reread;
    var js, p, limit := Print(show, v), Parser(0, [], -1), |TokensOf(show, v, 0)|;
    TokenizesDocument(show, v);
    CountAgrees(js, p, limit);
    SomeTokens(show, v);
    RebuildsDocument(show, strtod, v);
  }

  // ------------------------------------------------------------------------- the writer

  lemma {:induction false} PrunedIsCanonical(v: Value, levels: nat)
    requires levels > 0 && Canonical(v)
    ensures Canonical(Prune(v, levels))
    decreases v
  {
    match v
    case List(items) =>
      if levels > 1 {
        PrunedItemsCanonical(items, |items|, levels - 1);
        assert items[..|items|] == items;
      }
    case Object(members) =>
      if levels > 1 {
        PrunedMembersCanonical(members, |members|, levels - 1);
        assert members[..|members|] == members;
      }
    case _ =>
  }

  lemma {:induction false} PrunedItemsCanonical(items: seq<Value>, n: nat, levels: nat)
    requires levels > 0 && n <= |items| && forall k :: 0 <= k < |items| ==> Canonical(items[k])
    ensures var p := PruneItems(items[..n], levels); |p| == n && forall k :: 0 <= k < n ==> Canonical(p[k])
    decreases items, n
  {
    hide Canonical, Prune;
    if n > 0 {
      assert items[..n][..n - 1] == items[..n - 1];
      PrunedItemsCanonical(items, n - 1, levels);
      PrunedIsCanonical(items[n - 1], levels);
    }
  }

  lemma {:induction false} PrunedMembersCanonical(members: seq<Member>, n: nat, levels: nat)
    requires levels > 0 && n <= |members| && Canonical(Object(members))
    ensures var p := PruneMembers(members[..n], levels);
            && |p| == n
            && forall k :: 0 <= k < n ==> p[k].key == members[k].key && Canonical(p[k].value)
    decreases members, n
  {
    hide Canonical, Prune, SetMember;
    if n > 0 {
      var i := n - 1;
      assert members[..n][..i] == members[..i] && members[..n][i] == members[i];
      PrunedMembersCanonical(members, i, levels);
      MemberIsCanonical(members, i);
      PrunedIsCanonical(members[i].value, levels);
    }
  }

  /** What the writer writes, the reader accepts: reading it gives the value, with its
      numbers reread, without what lies below 64 levels, and so the value itself exactly if it has at
      most 64 levels and its numbers survive. */
  lemma {:induction false} WrittenIsRead(show: Show, strtod: Strtod, v: Value)
    requires Canonical(v)
    ensures FromJson(strtod, Print(show, Prune(v, MAX_DEPTH))) == Reread(show, strtod, Prune(v, MAX_DEPTH))
    ensures FromJson(strtod, Print(show, Prune(v, MAX_DEPTH))) == v
            <==> Height(v, 1) <= MAX_DEPTH && NumbersSurvive(show, strtod, v)
  {
    hide Canonical, Print, Prune, Height, FromJson, Reread, NumbersSurvive;
    var p := Prune(v, MAX_DEPTH);
    PrunedIsCanonical(v, MAX_DEPTH);
    PrunedFits(v, MAX_DEPTH);
    NestingFits(p);
    ParsesDocument(show, strtod, p);
    PruneKeepsWhatFits(v, MAX_DEPTH);
    RereadKeepsHeight(show, strtod, p, 1);
    UnchangedIfNumbersSurvive(show, strtod, v);
  }

  /** The same of the writer itself. */
  method WriteAndRead(show: Show, strtod: Strtod, v: Value) returns (text: Bytes, r: Value)
    requires Canonical(v)
    ensures text == Print(show, Prune(v, MAX_DEPTH))
    ensures r == Reread(show, strtod, Prune(v, MAX_DEPTH))
    ensures r == v <==> Height(v, 1) <= MAX_DEPTH && NumbersSurvive(show, strtod, v)
  {
    hide Canonical, Print, Prune, Height, FromJson, Reread, NumbersSurvive;
    var writer := new JsonWriter.Writer(show);
    writer.WriteDocument(v);
    text := writer.out;
    r := FromJson(strtod, text);
    WrittenIsRead(show, strtod, v);
  }
}
