/** The tokenizer on containers, and on whole documents. */
module JsonTokenizeTrees {
  import opened Bytes
  import opened JsonString
  import opened Json
  import opened JsonReader
  import opened JsonRebuild
  import opened Jsmn
  import opened JsonTokenize

  lemma LeadsOn(js: Bytes, limit: nat, p: Parser, q: Parser, r: Parser)
    requires Leads(js, limit, p, q) && Leads(js, limit, q, r)
    ensures Leads(js, limit, p, r)
  {
    hide Parse, Valid;
  }

  // ---------------------------------------------------------------------------- lists

  /** Inside a list that starts at `pos`, behind its first `i` items; `base` are the tokens before
      the list. */
  function ItemState(show: Show, base: seq<Token>, pos: nat, items: seq<Value>, i: nat): Parser
    requires i <= |items|
  {
    Parser(pos + 1 + |PrintItems(show, items[..i])|,
           base + [Token(ArrayToken, pos, -1, i)] + TokensOfItems(show, items[..i], pos + 1), |base|)
  }

  lemma {:induction false} ItemsClosed(show: Show, items: seq<Value>, i: nat, pos: nat)
    requires i <= |items| && forall k :: 0 <= k < |items| ==> Canonical(items[k])
    ensures AllClosed(TokensOfItems(show, items[..i], pos))
  {
    hide Canonical, TokensOfItems, PrintItems, Within, AllClosed;
    ItemsWithin(show, items, i, pos);
    WithinIsClosed(TokensOfItems(show, items[..i], pos), pos, pos + |PrintItems(show, items[..i])|);
  }

  /** Behind item `i` comes a comma or the end of the list. */
  lemma {:induction false} ItemIsDelimited(show: Show, items: seq<Value>, i: nat, js: Bytes, pos: nat)
    requires i < |items| && At(js, pos, PrintItems(show, items) + "]")
    ensures Delimited(js, pos + |PrintItems(show, items[..i + 1])|)
  {
    hide PrintItems, At, Print, TokensOfItems, TokensOf, Has;
    assert items[..|items|] == items;
    AtAppend(js, pos, PrintItems(show, items), "]");
    if i + 1 < |items| {
      HasItself(TokensOfItems(show, items, pos));
      ItemIsThere(show, items, i + 1, |items|, js, pos, TokensOfItems(show, items, pos), 0);
      AtFits(js, pos + |PrintItems(show, items[..i + 1])|, ",");
    } else {
      AtFits(js, pos + |PrintItems(show, items)|, "]");
    }
  }

  lemma HasItself(tokens: seq<Token>)
    ensures Has(tokens, 0, tokens)
  {
    assert tokens[..|tokens|] == tokens;
  }

  /** The comma before item `i`, if there is one. */
  lemma {:induction false} ScansItemComma(show: Show, items: seq<Value>, i: nat, js: Bytes, base: seq<Token>,
      pos: nat, limit: nat)
    requires i < |items| && Valid(js, ItemState(show, base, pos, items, i))
    requires At(js, pos + 1 + |PrintItems(show, items[..i])|, Separator(i))
    ensures Leads(js, limit, ItemState(show, base, pos, items, i),
                  ItemState(show, base, pos, items, i).(pos := ItemPos(show, items, i, pos + 1)))
  {
    hide PrintItems, TokensOfItems, Parse, At, AllPlaced;
    var p := ItemState(show, base, pos, items, i);
    if i > 0 {
      AtFits(js, p.pos, Separator(i));
      assert p.tokens[|base|] == Token(ArrayToken, pos, -1, i);
      StepComma(js, p, limit);
    }
  }

  /** Reading item `i` leads from one state of the list to the next. */
  lemma {:induction false} NextItemState(show: Show, items: seq<Value>, i: nat, base: seq<Token>, pos: nat)
    requires i < |items| && forall k :: 0 <= k < |items| ==> Canonical(items[k])
    ensures After(show, ItemState(show, base, pos, items, i).(pos := ItemPos(show, items, i, pos + 1)), items[i])
         == ItemState(show, base, pos, items, i + 1)
  {
    hide Print, PrintItems, TokensOf, TokensOfItems, Canonical, Bump, LastOpen, AllClosed;
    NextItem(show, items, i, pos + 1);
    var inner := TokensOfItems(show, items[..i], pos + 1);
    ItemsClosed(show, items, i, pos + 1);
    LastOpenIsNew(base, Token(ArrayToken, pos, -1, i), inner);
    BumpInside(base, Token(ArrayToken, pos, -1, i), inner);
    var t := TokensOf(show, items[i], ItemPos(show, items, i, pos + 1));
    var head := base + [Token(ArrayToken, pos, -1, i + 1)];
    assert head + inner + t == head + (inner + t);
  }

  /** There is room for the tokens of item `i`. */
  lemma {:induction false} ItemRoom(show: Show, items: seq<Value>, i: nat, js: Bytes, base: seq<Token>, pos: nat)
    requires i < |items| && At(js, pos + 1, PrintItems(show, items) + "]")
    ensures At(js, pos + 1 + |PrintItems(show, items[..i])|, Separator(i))
    ensures At(js, ItemPos(show, items, i, pos + 1), Print(show, items[i]))
    ensures |ItemState(show, base, pos, items, i).tokens| + |TokensOf(show, items[i], ItemPos(show, items, i, pos + 1))|
         <= |base| + 1 + |TokensOfItems(show, items, pos + 1)|
  {
    hide Print, PrintItems, TokensOf, TokensOfItems, At, Separator;
    assert items[..|items|] == items;
    AtAppend(js, pos + 1, PrintItems(show, items), "]");
    HasItself(TokensOfItems(show, items, pos + 1));
    ItemIsThere(show, items, i, |items|, js, pos + 1, TokensOfItems(show, items, pos + 1), 0);
  }

  lemma {:induction false} ScansItems(show: Show, items: seq<Value>, i: nat, js: Bytes, base: seq<Token>, pos: nat,
      limit: nat)
    requires i <= |items| && forall k :: 0 <= k < |items| ==> Canonical(items[k])
    requires At(js, pos + 1, PrintItems(show, items) + "]") && Valid(js, ItemState(show, base, pos, items, 0))
    requires |base| + 1 + |TokensOfItems(show, items, pos + 1)| <= limit
    ensures Leads(js, limit, ItemState(show, base, pos, items, 0), ItemState(show, base, pos, items, i))
    decreases items, i
  {
    hide *;
    if i == 0 {
      LeadsToItself(js, limit, ItemState(show, base, pos, items, 0));
    } else {
      var start, k := ItemState(show, base, pos, items, 0), i - 1;
      var p := ItemState(show, base, pos, items, k);
      var q := p.(pos := ItemPos(show, items, k, pos + 1));
      ScansItems(show, items, k, js, base, pos, limit);
      LeadsToValid(js, limit, start, p);
      ItemRoom(show, items, k, js, base, pos);
      ScansItemComma(show, items, k, js, base, pos, limit);
      LeadsOn(js, limit, start, p, q);
      LeadsToValid(js, limit, p, q);
      ItemIsDelimited(show, items, k, js, pos + 1);
      NextItemState(show, items, k, base, pos);
      AfterItemPos(show, items, k, base, pos);
      ScansValue(show, items[k], js, q, limit);
      LeadsOn(js, limit, start, q, ItemState(show, base, pos, items, i));
    }
  }

  lemma {:induction false} AfterItemPos(show: Show, items: seq<Value>, i: nat, base: seq<Token>, pos: nat)
    requires i < |items|
    ensures ItemPos(show, items, i, pos + 1) + |Print(show, items[i])| == pos + 1 + |PrintItems(show, items[..i + 1])|
  {
    hide Print, PrintItems, TokensOf, TokensOfItems;
    NextItem(show, items, i, pos + 1);
  }

  lemma LeadsToValid(js: Bytes, limit: nat, p: Parser, q: Parser)
    requires Leads(js, limit, p, q)
    ensures Valid(js, q)
  {
  }

  lemma LeadsToItself(js: Bytes, limit: nat, p: Parser)
    requires Valid(js, p)
    ensures Leads(js, limit, p, p)
  {
  }

  lemma {:induction false} OpensList(show: Show, items: seq<Value>, js: Bytes, p: Parser, limit: nat)
    requires Valid(js, p) && |p.tokens| < limit && At(js, p.pos, Print(show, List(items)))
    ensures At(js, p.pos + 1, PrintItems(show, items) + "]")
    ensures Leads(js, limit, p, ItemState(show, Bump(p.tokens, p.toksuper), p.pos, items, 0))
  {
    hide Print, PrintItems, TokensOf, TokensOfItems, Parse, At, AllPlaced, Bump;
    ListText(show, items, p.pos);
    assert Print(show, List(items)) == "[" + (PrintItems(show, items) + "]");
    AtAppend(js, p.pos, "[", PrintItems(show, items) + "]");
    AtFits(js, p.pos, Print(show, List(items)));
    StepOpen(js, p, limit);
    assert ItemState(show, Bump(p.tokens, p.toksuper), p.pos, items, 0) == Opened(p, '[') by {
      assert items[..0] == [];
      NothingText(show, p.pos + 1);
      var head := Bump(p.tokens, p.toksuper) + [Token(ArrayToken, p.pos, -1, 0)];
      assert head + [] == head;
    }
  }

  lemma {:induction false} EndOfList(show: Show, items: seq<Value>, base: seq<Token>, pos: nat)
    requires forall k :: 0 <= k < |items| ==> Canonical(items[k])
    ensures var q := ItemState(show, base, pos, items, |items|);
            && LastOpen(q.tokens) == |base| && |base| < |q.tokens| && q.tokens[|base|].kind == ArrayToken
            && Jsmn.Closed(q, |base|)
               == Parser(pos + |Print(show, List(items))|, base + TokensOf(show, List(items), pos), LastOpen(base))
  {
    hide Canonical, Print, PrintItems, TokensOf, TokensOfItems, LastOpen, AllClosed;
    var q, inner := ItemState(show, base, pos, items, |items|), TokensOfItems(show, items, pos + 1);
    assert items[..|items|] == items;
    ListText(show, items, pos);
    ItemsClosed(show, items, |items|, pos + 1);
    LastOpenIsNew(base, Token(ArrayToken, pos, -1, |items|), inner);
    assert q.tokens[..|base|] == base;
    var t := Token(ArrayToken, pos, q.pos + 1, |items|);
    assert Jsmn.Closed(q, |base|).tokens == base + ([t] + inner);
  }

  lemma {:induction false} ClosesList(show: Show, items: seq<Value>, js: Bytes, p: Parser, limit: nat)
    requires forall k :: 0 <= k < |items| ==> Canonical(items[k])
    requires At(js, p.pos + 1, PrintItems(show, items) + "]")
    requires Valid(js, ItemState(show, Bump(p.tokens, p.toksuper), p.pos, items, |items|))
    ensures Leads(js, limit, ItemState(show, Bump(p.tokens, p.toksuper), p.pos, items, |items|),
            After(show, p, List(items)))
  {
    hide Canonical, Print, PrintItems, TokensOf, TokensOfItems, Parse, At, Valid, Bump, LastOpen, Jsmn.Closed;
    var base := Bump(p.tokens, p.toksuper);
    var q := ItemState(show, base, p.pos, items, |items|);
    assert items[..|items|] == items;
    AtAppend(js, p.pos + 1, PrintItems(show, items), "]");
    AtFits(js, q.pos, "]");
    EndOfList(show, items, base, p.pos);
    LastOpenOfBumped(p.tokens, p.toksuper);
    StepClose(js, q, limit, |base|);
  }

  lemma {:induction false} ScansList(show: Show, items: seq<Value>, js: Bytes, p: Parser, limit: nat)
    requires forall k :: 0 <= k < |items| ==> Canonical(items[k])
    requires Valid(js, p) && |p.tokens| + 1 + |TokensOfItems(show, items, p.pos + 1)| <= limit
    requires At(js, p.pos, Print(show, List(items)))
    ensures Leads(js, limit, p, After(show, p, List(items)))
    decreases items, |items| + 1
  {
    hide *;
    var base := Bump(p.tokens, p.toksuper);
    var first, last := ItemState(show, base, p.pos, items, 0), ItemState(show, base, p.pos, items, |items|);
    OpensList(show, items, js, p, limit);
    LeadsToValid(js, limit, p, first);
    ScansItems(show, items, |items|, js, base, p.pos, limit);
    LeadsToValid(js, limit, first, last);
    ClosesList(show, items, js, p, limit);
    LeadsOn(js, limit, p, first, last);
    LeadsOn(js, limit, p, last, After(show, p, List(items)));
  }

  // -------------------------------------------------------------------------- objects

  /** The token that the tokenizer is at behind the first `i` members: the last key, unless its
      value was a container. */
  function MemberSuper(show: Show, base: seq<Token>, pos: nat, members: seq<Member>, i: nat): nat
    requires i <= |members|
  {
    if i == 0 || HoldsOthers(members[i - 1].value) then |base|
    else |base| + 1 + |TokensOfMembers(show, members[..i - 1], pos + 1)|
  }

  function MemberState(show: Show, base: seq<Token>, pos: nat, members: seq<Member>, i: nat): Parser
    requires i <= |members|
  {
    Parser(pos + 1 + |PrintMembers(show, members[..i])|,
           base + [Token(ObjectToken, pos, -1, i)] + TokensOfMembers(show, members[..i], pos + 1),
           MemberSuper(show, base, pos, members, i))
  }

  lemma {:induction false} MembersClosed(show: Show, members: seq<Member>, i: nat, pos: nat)
    requires i <= |members| && Canonical(Object(members))
    ensures AllClosed(TokensOfMembers(show, members[..i], pos))
  {
    hide Canonical, TokensOfMembers, PrintMembers, Within, AllClosed;
    MembersWithin(show, members, i, pos);
    WithinIsClosed(TokensOfMembers(show, members[..i], pos), pos, pos + |PrintMembers(show, members[..i])|);
  }

  lemma {:induction false} MemberIsDelimited(show: Show, members: seq<Member>, i: nat, js: Bytes, pos: nat)
    requires i < |members| && At(js, pos, PrintMembers(show, members) + "}")
    ensures Delimited(js, pos + |PrintMembers(show, members[..i + 1])|)
  {
    hide PrintMembers, At, PrintMember, TokensOfMembers, TokensOfMember, Has;
    assert members[..|members|] == members;
    AtAppend(js, pos, PrintMembers(show, members), "}");
    if i + 1 < |members| {
      HasItself(TokensOfMembers(show, members, pos));
      MemberIsThere(show, members, i + 1, |members|, js, pos, TokensOfMembers(show, members, pos), 0);
      AtFits(js, pos + |PrintMembers(show, members[..i + 1])|, ",");
    } else {
      AtFits(js, pos + |PrintMembers(show, members)|, "}");
    }
  }

  /** Before the key of member `i`. */
  function KeyState(show: Show, base: seq<Token>, pos: nat, members: seq<Member>, i: nat): Parser
    requires i < |members|
  {
    MemberState(show, base, pos, members, i).(pos := MemberPos(show, members, i, pos + 1), toksuper := |base|)
  }

  lemma {:induction false} ScansMemberComma(show: Show, members: seq<Member>, i: nat, js: Bytes, base: seq<Token>,
      pos: nat, limit: nat)
    requires i < |members| && Canonical(Object(members)) && Valid(js, MemberState(show, base, pos, members, i))
    requires At(js, pos + 1 + |PrintMembers(show, members[..i])|, Separator(i))
    ensures Leads(js, limit, MemberState(show, base, pos, members, i), KeyState(show, base, pos, members, i))
  {
    hide PrintMembers, TokensOfMembers, Parse, At, AllPlaced, Canonical, AllClosed, LastOpenContainer, MemberSuper;
    var p, inner := MemberState(show, base, pos, members, i), TokensOfMembers(show, members[..i], pos + 1);
    MembersClosed(show, members, i, pos + 1);
    LastOpenIsNew(base, Token(ObjectToken, pos, -1, i), inner);
    MemberSuperIs(show, members, i, base, pos);
    if i > 0 {
      AtFits(js, p.pos, Separator(i));
      StepComma(js, p, limit);
    }
  }

  lemma {:induction false} MemberSuperIs(show: Show, members: seq<Member>, i: nat, base: seq<Token>, pos: nat)
    requires i <= |members|
    ensures var p := MemberState(show, base, pos, members, i);
            && p.toksuper < |p.tokens|
            && (p.toksuper == |base| || (i > 0 && p.tokens[p.toksuper].kind == StringToken))
  {
    hide PrintMembers, TokensOfMembers, TokensOfMember;
    if i > 0 {
      NextMember(show, members, i - 1, pos + 1);
      var before := TokensOfMembers(show, members[..i - 1], pos + 1);
      var m := TokensOfMember(show, members[i - 1], MemberPos(show, members, i - 1, pos + 1));
      KeyIsFirst(show, members[i - 1], MemberPos(show, members, i - 1, pos + 1));
      assert (before + m)[|before|] == m[0];
    }
  }

  lemma KeyIsFirst(show: Show, m: Member, pos: nat)
    ensures |TokensOfMember(show, m, pos)| > 0 && TokensOfMember(show, m, pos)[0].kind == StringToken
  {
  }

  function KeyToken(m: Member, pos: nat, size: nat): Token {
    Token(StringToken, pos + 1, pos + |Quote(m.key)| - 1, size)
  }

  /** Before the value of member `i`. */
  function ValueState(show: Show, base: seq<Token>, pos: nat, members: seq<Member>, i: nat): Parser
    requires i < |members|
  {
    var at, inner := MemberPos(show, members, i, pos + 1), TokensOfMembers(show, members[..i], pos + 1);
    Parser(at + |Quote(members[i].key)| + 1,
           base + [Token(ObjectToken, pos, -1, i + 1)] + inner + [KeyToken(members[i], at, 0)],
           |base| + 1 + |inner|)
  }

  lemma {:induction false} ScansKey(show: Show, members: seq<Member>, i: nat, js: Bytes, base: seq<Token>, pos: nat,
      limit: nat)
    requires i < |members| && Valid(js, KeyState(show, base, pos, members, i))
    requires |KeyState(show, base, pos, members, i).tokens| < limit
    requires At(js, MemberPos(show, members, i, pos + 1), Quote(members[i].key) + ":")
    ensures Leads(js, limit, KeyState(show, base, pos, members, i), ValueState(show, base, pos, members, i))
  {
    hide PrintMembers, TokensOfMembers, Parse, At, AllPlaced, Bump, Quote;
    var p, m := KeyState(show, base, pos, members, i), members[i];
    AtAppend(js, p.pos, Quote(m.key), ":");
    ScansQuoted(m.key, js, p, limit);
    BumpInside(base, Token(ObjectToken, pos, -1, i), TokensOfMembers(show, members[..i], pos + 1));
    AtFits(js, p.pos + |Quote(m.key)|, ":");
    var q := ValueState(show, base, pos, members, i).(pos := p.pos + |Quote(m.key)|, toksuper := |base|);
    StepColon(js, q, limit);
  }

  lemma {:induction false} NextMemberTokens(show: Show, members: seq<Member>, i: nat, base: seq<Token>, pos: nat)
    requires i < |members|
    ensures After(show, ValueState(show, base, pos, members, i), members[i].value).tokens
            == MemberState(show, base, pos, members, i + 1).tokens
  {
    hide Print, PrintMembers, TokensOf, TokensOfMembers, Bump, LastOpen, Quote, MemberSuper, HoldsOthers;
    NextMember(show, members, i, pos + 1);
    var m, at, inner := members[i], MemberPos(show, members, i, pos + 1), TokensOfMembers(show, members[..i], pos + 1);
    var head, t := base + [Token(ObjectToken, pos, -1, i + 1)], TokensOf(show, m.value, at + |Quote(m.key)| + 1);
    hide MemberPos;
    BumpLast(head + inner, KeyToken(m, at, 0));
    Regrouped(head, inner, KeyToken(m, at, 1), t);
  }

  lemma {:induction false} NextMemberSuper(show: Show, members: seq<Member>, i: nat, base: seq<Token>, pos: nat)
    requires i < |members| && Canonical(Object(members))
    ensures After(show, ValueState(show, base, pos, members, i), members[i].value).toksuper
            == MemberSuper(show, base, pos, members, i + 1)
  {
    hide Print, PrintMembers, TokensOf, TokensOfMembers, Canonical, Bump, LastOpen, AllClosed, Quote, HoldsOthers;
    var m, at, inner := members[i], MemberPos(show, members, i, pos + 1), TokensOfMembers(show, members[..i], pos + 1);
    var head := base + [Token(ObjectToken, pos, -1, i + 1)];
    hide MemberPos;
    MembersClosed(show, members, i, pos + 1);
    ClosedPush(inner, KeyToken(m, at, 0));
    LastOpenIsNew(base, Token(ObjectToken, pos, -1, i + 1), inner + [KeyToken(m, at, 0)]);
    Regrouped(head, inner, KeyToken(m, at, 0), []);
  }

  lemma {:induction false} NextMemberState(show: Show, members: seq<Member>, i: nat, base: seq<Token>, pos: nat)
    requires i < |members| && Canonical(Object(members))
    ensures After(show, ValueState(show, base, pos, members, i), members[i].value)
            == MemberState(show, base, pos, members, i + 1)
  {
    hide Print, PrintMembers, TokensOf, TokensOfMembers, Canonical, Bump, LastOpen, Quote, MemberSuper, HoldsOthers;
    NextMember(show, members, i, pos + 1);
    NextMemberTokens(show, members, i, base, pos);
    NextMemberSuper(show, members, i, base, pos);
  }

  lemma BumpLast(a: seq<Token>, t: Token)
    ensures Bump(a + [t], |a|) == a + [t.(size := t.size + 1)]
  {
  }

  lemma Regrouped(a: seq<Token>, b: seq<Token>, t: Token, c: seq<Token>)
    ensures a + b + [t] + c == a + (b + ([t] + c))
    ensures a + b + [t] == a + (b + [t])
  {
  }

  lemma ClosedPush(tokens: seq<Token>, t: Token)
    requires AllClosed(tokens) && t.end != -1
    ensures AllClosed(tokens + [t])
  {
  }

  lemma {:induction false} MemberRoom(show: Show, members: seq<Member>, i: nat, js: Bytes, base: seq<Token>, pos: nat)
    requires i < |members| && At(js, pos + 1, PrintMembers(show, members) + "}")
    ensures At(js, pos + 1 + |PrintMembers(show, members[..i])|, Separator(i))
    ensures At(js, MemberPos(show, members, i, pos + 1), Quote(members[i].key) + ":")
    ensures At(js, ValueState(show, base, pos, members, i).pos, Print(show, members[i].value))
    ensures |KeyState(show, base, pos, members, i).tokens| + 1 == |ValueState(show, base, pos, members, i).tokens|
    ensures |ValueState(show, base, pos, members, i).tokens|
            + |TokensOf(show, members[i].value, ValueState(show, base, pos, members, i).pos)|
         <= |base| + 1 + |TokensOfMembers(show, members, pos + 1)|
  {
    hide Print, PrintMembers, TokensOf, TokensOfMembers, At, Separator, Quote;
    var m, at := members[i], MemberPos(show, members, i, pos + 1);
    assert members[..|members|] == members;
    AtAppend(js, pos + 1, PrintMembers(show, members), "}");
    HasItself(TokensOfMembers(show, members, pos + 1));
    MemberIsThere(show, members, i, |members|, js, pos + 1, TokensOfMembers(show, members, pos + 1), 0);
    AtAppend(js, at, Quote(m.key) + ":", Print(show, m.value));
  }

  lemma {:induction false} AfterMemberPos(show: Show, members: seq<Member>, i: nat, base: seq<Token>, pos: nat)
    requires i < |members|
    ensures ValueState(show, base, pos, members, i).pos + |Print(show, members[i].value)|
         == pos + 1 + |PrintMembers(show, members[..i + 1])|
  {
    hide Print, PrintMembers, TokensOf, TokensOfMembers, Quote;
    NextMember(show, members, i, pos + 1);
  }

  lemma {:induction false} ScansMembers(show: Show, members: seq<Member>, i: nat, js: Bytes, base: seq<Token>,
      pos: nat, limit: nat)
    requires i <= |members| && Canonical(Object(members))
    requires At(js, pos + 1, PrintMembers(show, members) + "}") && Valid(js, MemberState(show, base, pos, members, 0))
    requires |base| + 1 + |TokensOfMembers(show, members, pos + 1)| <= limit
    ensures Leads(js, limit, MemberState(show, base, pos, members, 0), MemberState(show, base, pos, members, i))
    decreases members, i
  {
    hide *;
    if i == 0 {
      LeadsToItself(js, limit, MemberState(show, base, pos, members, 0));
    } else {
      var start, k := MemberState(show, base, pos, members, 0), i - 1;
      var p, q := MemberState(show, base, pos, members, k), KeyState(show, base, pos, members, k);
      var r := ValueState(show, base, pos, members, k);
      ScansMembers(show, members, k, js, base, pos, limit);
      LeadsToValid(js, limit, start, p);
      MemberRoom(show, members, k, js, base, pos);
      ScansMemberComma(show, members, k, js, base, pos, limit);
      LeadsToValid(js, limit, p, q);
      ScansKey(show, members, k, js, base, pos, limit);
      LeadsToValid(js, limit, q, r);
      MemberIsDelimited(show, members, k, js, pos + 1);
      NextMemberState(show, members, k, base, pos);
      AfterMemberPos(show, members, k, base, pos);
      MemberIsCanonical(members, k);
      ScansValue(show, members[k].value, js, r, limit);
      LeadsOn(js, limit, start, p, q);
      LeadsOn(js, limit, start, q, r);
      LeadsOn(js, limit, start, r, MemberState(show, base, pos, members, i));
    }
  }

  lemma {:induction false} OpensObject(show: Show, members: seq<Member>, js: Bytes, p: Parser, limit: nat)
    requires Valid(js, p) && |p.tokens| < limit && At(js, p.pos, Print(show, Object(members)))
    ensures At(js, p.pos + 1, PrintMembers(show, members) + "}")
    ensures Leads(js, limit, p, MemberState(show, Bump(p.tokens, p.toksuper), p.pos, members, 0))
  {
    hide Print, PrintMembers, TokensOf, TokensOfMembers, Parse, At, AllPlaced, Bump;
    ObjectText(show, members, p.pos);
    assert Print(show, Object(members)) == "{" + (PrintMembers(show, members) + "}");
    AtAppend(js, p.pos, "{", PrintMembers(show, members) + "}");
    AtFits(js, p.pos, Print(show, Object(members)));
    StepOpen(js, p, limit);
    assert MemberState(show, Bump(p.tokens, p.toksuper), p.pos, members, 0) == Opened(p, '{') by {
      assert members[..0] == [];
      NothingText(show, p.pos + 1);
      var head := Bump(p.tokens, p.toksuper) + [Token(ObjectToken, p.pos, -1, 0)];
      assert head + [] == head;
    }
  }

  lemma {:induction false} EndOfObject(show: Show, members: seq<Member>, base: seq<Token>, pos: nat)
    requires Canonical(Object(members))
    ensures var q := MemberState(show, base, pos, members, |members|);
            && LastOpen(q.tokens) == |base| && |base| < |q.tokens| && q.tokens[|base|].kind == ObjectToken
            && Jsmn.Closed(q, |base|)
               == Parser(pos + |Print(show, Object(members))|,
                         base + TokensOf(show, Object(members), pos), LastOpen(base))
  {
    hide Canonical, Print, PrintMembers, TokensOf, TokensOfMembers, LastOpen, AllClosed, MemberSuper;
    var q, inner := MemberState(show, base, pos, members, |members|), TokensOfMembers(show, members, pos + 1);
    assert members[..|members|] == members;
    ObjectText(show, members, pos);
    MembersClosed(show, members, |members|, pos + 1);
    LastOpenIsNew(base, Token(ObjectToken, pos, -1, |members|), inner);
    assert q.tokens[..|base|] == base;
    var t := Token(ObjectToken, pos, q.pos + 1, |members|);
    assert Jsmn.Closed(q, |base|).tokens == base + ([t] + inner);
  }

  lemma {:induction false} ClosesObject(show: Show, members: seq<Member>, js: Bytes, p: Parser, limit: nat)
    requires Canonical(Object(members))
    requires At(js, p.pos + 1, PrintMembers(show, members) + "}")
    requires Valid(js, MemberState(show, Bump(p.tokens, p.toksuper), p.pos, members, |members|))
    ensures Leads(js, limit, MemberState(show, Bump(p.tokens, p.toksuper), p.pos, members, |members|),
                  After(show, p, Object(members)))
  {
    hide Canonical, Print, PrintMembers, TokensOf, TokensOfMembers, Parse, At, Valid, Bump, LastOpen, Jsmn.Closed,
         MemberSuper;
    var base := Bump(p.tokens, p.toksuper);
    var q := MemberState(show, base, p.pos, members, |members|);
    assert members[..|members|] == members;
    AtAppend(js, p.pos + 1, PrintMembers(show, members), "}");
    AtFits(js, q.pos, "}");
    EndOfObject(show, members, base, p.pos);
    LastOpenOfBumped(p.tokens, p.toksuper);
    StepClose(js, q, limit, |base|);
  }

  lemma {:induction false} ScansObject(show: Show, members: seq<Member>, js: Bytes, p: Parser, limit: nat)
    requires Canonical(Object(members))
    requires Valid(js, p) && |p.tokens| + 1 + |TokensOfMembers(show, members, p.pos + 1)| <= limit
    requires At(js, p.pos, Print(show, Object(members)))
    ensures Leads(js, limit, p, After(show, p, Object(members)))
    decreases members, |members| + 1
  {
    hide *;
    var base := Bump(p.tokens, p.toksuper);
    var first, last := MemberState(show, base, p.pos, members, 0), MemberState(show, base, p.pos, members, |members|);
    OpensObject(show, members, js, p, limit);
    LeadsToValid(js, limit, p, first);
    ScansMembers(show, members, |members|, js, base, p.pos, limit);
    LeadsToValid(js, limit, first, last);
    ClosesObject(show, members, js, p, limit);
    LeadsOn(js, limit, p, first, last);
    LeadsOn(js, limit, p, last, After(show, p, Object(members)));
  }

  // --------------------------------------------------------------------------- values

  /** From the start of a value to its end, the tokenizer adds the tokens of the value and counts
      one more item for the token the value belongs to. */
  lemma {:induction false} ScansValue(show: Show, v: Value, js: Bytes, p: Parser, limit: nat)
    requires Canonical(v) && Valid(js, p) && |p.tokens| + |TokensOf(show, v, p.pos)| <= limit
    requires At(js, p.pos, Print(show, v)) && Delimited(js, p.pos + |Print(show, v)|)
    ensures Leads(js, limit, p, After(show, p, v))
    decreases v
  {
    hide *;
    match v
    case List(items) =>
      ListText(show, items, p.pos);
      CanonicalItems(items);
      ScansList(show, items, js, p, limit);
    case Object(members) =>
      ObjectText(show, members, p.pos);
      ScansObject(show, members, js, p, limit);
    case _ => ScansLeaf(show, v, js, p, limit);
  }

  lemma {:induction false} ScansLeaf(show: Show, v: Value, js: Bytes, p: Parser, limit: nat)
    requires Canonical(v) && !v.List? && !v.Object? && Valid(js, p) && |p.tokens| + |TokensOf(show, v, p.pos)| <= limit
    requires At(js, p.pos, Print(show, v)) && Delimited(js, p.pos + |Print(show, v)|)
    ensures Leads(js, limit, p, After(show, p, v))
  {
    hide Parse, Valid, Escape, At, Bump, Delimited;
    if v.Str? {
      ScansQuoted(v.s, js, p, limit);
    } else {
      ScansPrimitive(show, v, js, p, limit);
    }
  }
}
