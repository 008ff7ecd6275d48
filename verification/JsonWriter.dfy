/**
 The streaming JSON writer (src/sentry_json.c) and the traversal of a value that drives it
 (src/sentry_value.c).

 The writer keeps one bit per level that says whether the next item there needs a comma, and
 writes nothing below level 64.  It is proved to write what the recursive printer gives for the
 tree with everything below 64 levels dropped.
 */
module JsonWriter {
  import opened Bytes
  import opened JsonString
  import opened Json

  // ------------------------------------------------------------------- comma bits

  predicate BitAt(mask: bv64, b: bv6) {
    (mask >> b) & 1 == 1
  }

  function SetAt(mask: bv64, a: bv6, val: bool): bv64 {
    if val then mask | (1 << a) else mask & !(1 << a)
  }

  lemma SetOnes(mask: bv64, a: bv6, b: bv6)
    requires a == b || BitAt(mask, b)
    ensures BitAt(SetAt(mask, a, true), b)
  {
  }

  lemma SetKeepsZeros(mask: bv64, a: bv6, b: bv6)
    requires a != b && !BitAt(mask, b)
    ensures !BitAt(SetAt(mask, a, true), b)
  {
  }

  lemma ClearKeepsOnes(mask: bv64, a: bv6, b: bv6)
    requires a != b && BitAt(mask, b)
    ensures BitAt(SetAt(mask, a, false), b)
  {
  }

  lemma ClearKeepsZeros(mask: bv64, a: bv6, b: bv6)
    requires !BitAt(mask, b)
    ensures !BitAt(SetAt(mask, a, false), b)
  {
  }

  lemma ClearClears(mask: bv64, a: bv6)
    ensures !BitAt(SetAt(mask, a, false), a)
  {
  }

  /** Whether the next item at level `d` needs a comma. */
  predicate Bit(mask: bv64, d: nat)
    requires d < 64
  {
    BitAt(mask, d as bv6)
  }

  lemma LevelIsExact(d: nat)
    requires d < 64
    ensures (d as bv6) as nat == d
  {
  }

  /** Setting one bit sets that bit and no other. */
  lemma BitAfterSet(mask: bv64, d: nat, val: bool, e: nat)
    requires d < 64 && e < 64
    ensures Bit(SetAt(mask, d as bv6, val), e) <==> if d == e then val else Bit(mask, e)
  {
    hide BitAt, SetAt;
    LevelIsExact(d);
    LevelIsExact(e);
    var a, b := d as bv6, e as bv6;
    if val {
      if d == e || BitAt(mask, b) { SetOnes(mask, a, b); } else { SetKeepsZeros(mask, a, b); }
    } else if d == e {
      ClearClears(mask, a);
    } else if BitAt(mask, b) {
      ClearKeepsOnes(mask, a, b);
    } else {
      ClearKeepsZeros(mask, a, b);
    }
  }

  // ---------------------------------------------------------------------- strings

  predicate NeedsEscaping(c: Byte) {
    c as int < 32 || c == '"' || c == '\\'
  }

  lemma EscapeTo(s: Bytes, ptr: nat)
    requires ptr < |s|
    ensures Escape(s[..ptr + 1]) == Escape(s[..ptr]) + EscapeByte(s[ptr])
  {
    assert s[..ptr + 1] == s[..ptr] + [s[ptr]];
    EscapePush(s[..ptr], s[ptr]);
  }

  /** A byte that needs an escape ends the run of plain bytes from `start`. */
  lemma RunEnds(out: Bytes, s: Bytes, start: nat, ptr: nat, before: Bytes)
    requires start <= ptr < |s| && out + s[start..ptr] == before + Escape(s[..ptr])
    ensures out + s[start..ptr] + EscapeByte(s[ptr]) + s[ptr + 1..ptr + 1] == before + Escape(s[..ptr + 1])
  {
    EscapeTo(s, ptr);
    hide Escape, EscapeByte;
    assert before + Escape(s[..ptr]) + EscapeByte(s[ptr]) == before + (Escape(s[..ptr]) + EscapeByte(s[ptr]));
  }

  /** A byte that needs none makes it longer. */
  lemma RunGrows(out: Bytes, s: Bytes, start: nat, ptr: nat, before: Bytes)
    requires start <= ptr < |s| && out + s[start..ptr] == before + Escape(s[..ptr])
    requires !NeedsEscaping(s[ptr])
    ensures out + s[start..ptr + 1] == before + Escape(s[..ptr + 1])
  {
    EscapeTo(s, ptr);
    assert EscapeByte(s[ptr]) == [s[ptr]];
    hide Escape, EscapeByte;
    assert out + s[start..ptr + 1] == out + s[start..ptr] + [s[ptr]];
    assert before + Escape(s[..ptr]) + [s[ptr]] == before + (Escape(s[..ptr]) + [s[ptr]]);
  }

  // ------------------------------------------------------------------------ steps

  /** The state of a writer as a value. */
  datatype View = View(out: Bytes, mask: bv64, depth: nat, key: bool)

  predicate SameBelow(a: bv64, b: bv64, depth: nat) {
    forall e: nat :: e < depth && e < MAX_DEPTH ==> (Bit(a, e) <==> Bit(b, e))
  }

  /** The comma before the next item. */
  function Comma(w: View): Bytes
    requires w.depth < MAX_DEPTH
  {
    if !w.key && Bit(w.mask, w.depth) then "," else []
  }

  /** The bit that an item leaves behind. */
  predicate Marked(w: View, w': View)
    requires w.depth < MAX_DEPTH
  {
    Bit(w'.mask, w.depth) <==> !w.key || Bit(w.mask, w.depth)
  }

  /** What writing one item at the current level does: the item is written after a comma if it
      needs one, and nothing is written below the last level. */
  predicate Wrote(w: View, w': View, text: Bytes) {
    && w'.depth == w.depth
    && SameBelow(w.mask, w'.mask, w.depth)
    && if w.depth < MAX_DEPTH
       then w'.out == w.out + Comma(w) + text && !w'.key && Marked(w, w')
       else w'.out == w.out && w'.mask == w.mask && w'.key == w.key
  }

  /** Where a writer stands in a container that was opened by `c` when it was in state `w`, after
      the text `inner` of the first `count` items. */
  predicate Inside(w: View, w': View, c: Byte, inner: Bytes, count: nat) {
    && w'.depth == w.depth + 1
    && SameBelow(w.mask, w'.mask, w.depth)
    && if w.depth < MAX_DEPTH
       then
         && w'.out == w.out + Comma(w) + [c] + inner && !w'.key && Marked(w, w')
         && (w'.depth < MAX_DEPTH ==> (Bit(w'.mask, w'.depth) <==> count > 0))
       else w'.out == w.out && w'.mask == w.mask && w'.key == w.key
  }

  lemma AnotherItem(w: View, m: View, w': View, c: Byte, inner: Bytes, count: nat, text: Bytes)
    requires Inside(w, m, c, inner, count) && Wrote(m, w', text)
    ensures Inside(w, w', c, if m.depth < MAX_DEPTH then inner + Separator(count) + text else inner, count + 1)
  {
    hide Bit;
    if m.depth < MAX_DEPTH {
      assert w'.out == w.out + Comma(w) + [c] + (inner + Separator(count) + text);
    }
  }

  lemma Closed(w: View, m: View, w': View, c: Byte, inner: Bytes, count: nat, end: Byte)
    requires Inside(w, m, c, inner, count)
    requires w' == m.(depth := w.depth, out := if w.depth < MAX_DEPTH then m.out + [end] else m.out)
    ensures Wrote(w, w', [c] + inner + [end])
  {
    hide Bit;
    if w.depth < MAX_DEPTH {
      assert w'.out == w.out + Comma(w) + ([c] + inner + [end]);
    }
  }

  // ----------------------------------------------------------------------- writer

  class Writer {
    var out: Bytes
    var wantComma: bv64
    var depth: nat
    var lastWasKey: bool
    const show: Show

    constructor (show: Show)
      ensures Now() == View([], 0, 0, false) && this.show == show
    {
      this.show := show;
      out, wantComma, depth, lastWasKey := [], 0, 0, false;
    }

    function Now(): View
      reads this
    {
      View(out, wantComma, depth, lastWasKey)
    }

    method SetComma(val: bool)
      modifies this`wantComma
      ensures SameBelow(old(wantComma), wantComma, depth)
      ensures if depth < MAX_DEPTH then Bit(wantComma, depth) <==> val else wantComma == old(wantComma)
    {
      hide Bit, SetAt;
      if depth < MAX_DEPTH {
        var mask := SetAt(wantComma, depth as bv6, val);
        BitAfterSet(wantComma, depth, val, depth);
        forall e: nat | e < depth
          ensures Bit(wantComma, e) <==> Bit(mask, e)
        {
          BitAfterSet(wantComma, depth, val, e);
        }
        wantComma := mask;
      }
    }

    method CanWriteItem() returns (can: bool)
      modifies this
      ensures can == (depth < MAX_DEPTH)
      ensures Wrote(old(Now()), Now(), [])
    {
      hide BitAt;
      if depth >= MAX_DEPTH {
        return false;
      }
      if lastWasKey {
        lastWasKey := false;
        return true;
      }
      if BitAt(wantComma, depth as bv6) {
        out := out + ",";
      } else {
        SetComma(true);
      }
      return true;
    }

    method WriteChar(c: Byte)
      modifies this`out
      ensures out == old(out) + [c]
    {
      out := out + [c];
    }

    method WriteStr(s: Bytes)
      modifies this`out
      ensures out == old(out) + s
    {
      out := out + s;
    }

    /** Writes the escaped string in runs of bytes that need no escape. */
    method WriteJsonStr(s: Bytes)
      modifies this`out
      ensures out == old(out) + Escape(s)
    {
      assert s[..0] == [] && s[..|s|] == s;
      var start := 0;
      for ptr := 0 to |s|
        invariant 0 <= start <= ptr
        invariant out + s[start..ptr] == old(out) + Escape(s[..ptr])
      {
        hide Escape, EscapeByte;
        ghost var before := out;
        if NeedsEscaping(s[ptr]) {
          WriteStr(s[start..ptr]);
          WriteStr(EscapeByte(s[ptr]));
          RunEnds(before, s, start, ptr, old(out));
          start := ptr + 1;
        } else {
          RunGrows(out, s, start, ptr, old(out));
        }
      }
      WriteStr(s[start..]);
    }

    /** An item whose text needs no escape. */
    method WriteItem(text: Bytes)
      modifies this
      ensures depth == old(depth)
      ensures Wrote(old(Now()), Now(), text)
    {
      hide Bit;
      var can := CanWriteItem();
      if can {
        WriteStr(text);
      }
    }

    method WriteString(s: Bytes)
      modifies this
      ensures depth == old(depth)
      ensures Wrote(old(Now()), Now(), Quote(s))
    {
      hide Bit, Escape;
      var can := CanWriteItem();
      if can {
        WriteChar('"');
        WriteJsonStr(s);
        WriteChar('"');
      }
    }

    method WriteKey(key: Bytes)
      modifies this
      ensures depth < MAX_DEPTH ==> lastWasKey
      ensures Wrote(old(Now()), Now().(key := if depth < MAX_DEPTH then false else lastWasKey), Quote(key) + ":")
    {
      hide Bit, Escape;
      var can := CanWriteItem();
      if can {
        WriteChar('"');
        WriteJsonStr(key);
        WriteChar('"');
        WriteChar(':');
        lastWasKey := true;
      }
    }

    /** The start of a container, before its items. */
    method Open(c: Byte)
      modifies this
      ensures depth == old(depth) + 1
      ensures Inside(old(Now()), Now(), c, [], 0)
    {
      hide Bit;
      var can := CanWriteItem();
      if can {
        WriteChar(c);
      }
      depth := depth + 1;
      SetComma(false);
    }

    /** The end of a container. */
    method Close(c: Byte)
      requires depth > 0
      modifies this
      ensures depth == old(depth) - 1
      ensures Now() == old(Now()).(depth := depth, out := if depth < MAX_DEPTH then old(out) + [c] else old(out))
    {
      depth := depth - 1;
      if depth < MAX_DEPTH {
        WriteChar(c);
      }
    }

    method WriteList(items: seq<Value>)
      modifies this
      ensures depth == old(depth)
      ensures Wrote(old(Now()), Now(), "[" + ItemsText(show, items, MAX_DEPTH - depth - 1) + "]")
      decreases items
    {
      hide Wrote, Inside, ItemsText;
      ghost var levels := MAX_DEPTH - depth - 1;
      NoItems(show, levels);
      Open('[');
      for i := 0 to |items|
        invariant depth == old(depth) + 1
        invariant Inside(old(Now()), Now(), '[', ItemsText(show, items[..i], levels), i)
      {
        ghost var before := Now();
        WriteValue(items[i]);
        AnotherItem(old(Now()), before, Now(), '[', ItemsText(show, items[..i], levels), i,
            Text(show, items[i], levels));
        ItemsPush(show, items, i, levels);
      }
      ghost var before := Now();
      assert items[..|items|] == items;
      Close(']');
      Closed(old(Now()), before, Now(), '[', ItemsText(show, items, levels), |items|, ']');
    }

    method WriteMember(m: Member)
      modifies this
      ensures depth == old(depth)
      ensures Wrote(old(Now()), Now(), Quote(m.key) + ":" + Text(show, m.value, MAX_DEPTH - depth))
      decreases m
    {
      hide Bit;
      WriteKey(m.key);
      ghost var before := Now();
      WriteValue(m.value);
      hide Quote, Text;
      if depth < MAX_DEPTH {
        assert out == old(out) + Comma(old(Now())) + (Quote(m.key) + ":" + Text(show, m.value, MAX_DEPTH - depth));
      }
    }

    method WriteObject(members: seq<Member>)
      modifies this
      ensures depth == old(depth)
      ensures Wrote(old(Now()), Now(), "{" + MembersText(show, members, MAX_DEPTH - depth - 1) + "}")
      decreases members
    {
      hide Wrote, Inside, MembersText;
      ghost var levels := MAX_DEPTH - depth - 1;
      NoItems(show, levels);
      Open('{');
      for i := 0 to |members|
        invariant depth == old(depth) + 1
        invariant Inside(old(Now()), Now(), '{', MembersText(show, members[..i], levels), i)
      {
        ghost var before := Now();
        WriteMember(members[i]);
        AnotherItem(old(Now()), before, Now(), '{', MembersText(show, members[..i], levels), i,
                    Quote(members[i].key) + ":" + Text(show, members[i].value, levels));
        MembersPush(show, members, i, levels);
      }
      ghost var before := Now();
      assert members[..|members|] == members;
      Close('}');
      Closed(old(Now()), before, Now(), '{', MembersText(show, members, levels), |members|, '}');
    }

    /** Writing a value, at any level, writes the text of the value pruned to the levels left. */
    method WriteValue(v: Value)
      modifies this
      ensures depth == old(depth)
      ensures Wrote(old(Now()), Now(), Text(show, v, MAX_DEPTH - depth))
      decreases v
    {
      hide SameBelow, Comma, Marked;
      if depth < MAX_DEPTH {
        ContainerText(show, v, MAX_DEPTH - depth);
      }
      match v
      case Null => WriteItem("null");
      case Bool(b) => WriteItem(if b then "true" else "false");
      case Int(n, _) => WriteItem(PrintInt(n));
      case Real(bits) => WriteItem(PrintReal(show, bits));
      case Str(s) => WriteString(s);
      case List(items) => WriteList(items);
      case Object(members) => WriteObject(members);
    }

    /** A fresh writer writes the text of the value without what lies below 64 levels, and so
        does a writer that was reset. */
    method WriteDocument(v: Value)
      requires depth == 0 && !lastWasKey && wantComma == 0
      modifies this
      ensures out == old(out) + Print(show, Prune(v, MAX_DEPTH))
    {
      assert !Bit(0, 0);
      hide Bit;
      WriteValue(v);
    }
  }

  // ------------------------------------------------------------------------- text

  /** The text of a value for which `levels` levels are left. */
  function Text(show: Show, v: Value, levels: int): Bytes {
    if levels <= 0 then [] else Print(show, Prune(v, levels))
  }

  function ItemsText(show: Show, items: seq<Value>, levels: int): Bytes {
    if levels <= 0 then [] else PrintItems(show, PruneItems(items, levels))
  }

  function MembersText(show: Show, members: seq<Member>, levels: int): Bytes {
    if levels <= 0 then [] else PrintMembers(show, PruneMembers(members, levels))
  }

  lemma ContainerText(show: Show, v: Value, levels: int)
    requires levels > 0
    ensures v.List? ==> Text(show, v, levels) == "[" + ItemsText(show, v.items, levels - 1) + "]"
    ensures v.Object? ==> Text(show, v, levels) == "{" + MembersText(show, v.members, levels - 1) + "}"
  {
    NoItems(show, levels - 1);
  }

  lemma NoItems(show: Show, levels: int)
    ensures ItemsText(show, [], levels) == [] && MembersText(show, [], levels) == []
  {
  }

  lemma {:induction false} ItemsPush(show: Show, items: seq<Value>, i: nat, levels: int)
    requires i < |items|
    ensures ItemsText(show, items[..i + 1], levels)
         == if levels > 0 then ItemsText(show, items[..i], levels) + Separator(i) + Text(show, items[i], levels)
            else ItemsText(show, items[..i], levels)
  {
    if levels > 0 {
      assert items[..i + 1][..i] == items[..i];
      var p := PruneItems(items[..i + 1], levels);
      PruneItemsLength(items[..i], levels);
      assert p[..|p| - 1] == PruneItems(items[..i], levels);
    }
  }

  lemma {:induction false} PruneItemsLength(items: seq<Value>, levels: nat)
    requires levels > 0
    ensures |PruneItems(items, levels)| == |items|
  {
    if items != [] {
      PruneItemsLength(items[..|items| - 1], levels);
    }
  }

  lemma {:induction false} MembersPush(show: Show, members: seq<Member>, i: nat, levels: int)
    requires i < |members|
    ensures MembersText(show, members[..i + 1], levels)
         == if levels > 0 then MembersText(show, members[..i], levels) + Separator(i)
                               + (Quote(members[i].key) + ":" + Text(show, members[i].value, levels))
            else MembersText(show, members[..i], levels)
  {
    if levels > 0 {
      assert members[..i + 1][..i] == members[..i];
      var p := PruneMembers(members[..i + 1], levels);
      PruneMembersLength(members[..i], levels);
      assert p[..|p| - 1] == PruneMembers(members[..i], levels);
      assert p[|p| - 1] == Member(members[i].key, Prune(members[i].value, levels));
      assert PrintMember(show, p[|p| - 1]) == Quote(members[i].key) + ":" + Text(show, members[i].value, levels);
    }
  }

  lemma {:induction false} PruneMembersLength(members: seq<Member>, levels: nat)
    requires levels > 0
    ensures |PruneMembers(members, levels)| == |members|
  {
    if members != [] {
      PruneMembersLength(members[..|members| - 1], levels);
    }
  }
}
