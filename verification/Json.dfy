/** JSON values, and their text as a recursive printer gives it. */
module Json {
  import opened Bytes
  import opened JsonString

  const MAX_DEPTH: nat := 64

  datatype Value =
    | Null
    | Bool(b: bool)
    | Int(n: int, width: Width)
    | Real(bits: nat)  // a double, by its bits
    | Str(s: Bytes)
    | List(items: seq<Value>)
    | Object(members: seq<Member>)

  datatype Member = Member(key: Bytes, value: Value)

  // ---------------------------------------------------------------------- integers

  /** The three integer types of values. */
  datatype Width = Int32 | Int64 | Uint64

  predicate InWidth(width: Width, n: int) {
    match width
    case Int32 => INT32_MIN <= n <= INT32_MAX
    case Int64 => INT64_MIN <= n <= INT64_MAX
    case Uint64 => 0 <= n <= UINT64_MAX
  }

  /** The type the reader gives an integer: the first of the three that holds it. */
  function Narrowest(n: int): (width: Width)
    ensures INT64_MIN <= n <= UINT64_MAX ==> InWidth(width, n)
  {
    if INT32_MIN <= n <= INT32_MAX then Int32 else if n <= INT64_MAX then Int64 else Uint64
  }

  /** The accessors: a signed one takes every narrower type, the unsigned one only its own, and for
      everything else the answer is zero. */
  function AsInt32(v: Value): int {
    if v.Int? && v.width == Int32 then v.n else 0
  }

  function AsInt64(v: Value): int {
    if v.Int? && v.width != Uint64 then v.n else 0
  }

  function AsUint64(v: Value): int {
    if v.Int? && v.width == Uint64 then v.n else 0
  }

  // ---------------------------------------------------------------------- doubles

  /** What the C library prints for a finite double with 16 significant digits. */
  type NumberText = s: Bytes | IsNumberText(s) witness "0"

  predicate IsNumberText(s: Bytes) {
    s != [] && forall i :: 0 <= i < |s| ==> IsDigit(s[i]) || s[i] == '.' || s[i] == 'e' || s[i] == '+' || s[i] == '-'
  }

  /** The printing and the reading of doubles are those of the C library, and parameters here. */
  type Show = nat -> NumberText
  type Strtod = Bytes -> nat

  /** Neither an infinity nor a NaN: the exponent bits are not all set. */
  predicate IsFinite(bits: nat) {
    bits / 0x10_0000_0000_0000 % 0x800 != 0x7FF
  }

  /** A double on the wire: what cannot be printed, or is not finite, is null. */
  function PrintReal(show: Show, bits: nat): Bytes {
    if IsFinite(bits) && |show(bits)| < 24 then show(bits) else "null"
  }

  // ------------------------------------------------------------------------- text

  function PrintInt(n: int): Bytes {
    if n < 0 then "-" + Decimal(-n) else Decimal(n)
  }

  function Quote(s: Bytes): Bytes {
    "\"" + Escape(s) + "\""
  }

  function Print(show: Show, v: Value): Bytes {
    match v
    case Null => "null"
    case Bool(b) => if b then "true" else "false"
    case Int(n, _) => PrintInt(n)
    case Real(bits) => PrintReal(show, bits)
    case Str(s) => Quote(s)
    case List(items) => "[" + PrintItems(show, items) + "]"
    case Object(members) => "{" + PrintMembers(show, members) + "}"
  }

  function Separator(i: nat): Bytes {
    if i == 0 then [] else ","
  }

  function PrintItems(show: Show, items: seq<Value>): Bytes {
    if items == [] then []
    else PrintItems(show, items[..|items| - 1]) + Separator(|items| - 1) + Print(show, items[|items| - 1])
  }

  function PrintMember(show: Show, m: Member): Bytes {
    Quote(m.key) + ":" + Print(show, m.value)
  }

  function PrintMembers(show: Show, members: seq<Member>): Bytes {
    if members == [] then []
    else
      PrintMembers(show, members[..|members| - 1]) + Separator(|members| - 1)
          + PrintMember(show, members[|members| - 1])
  }

  // ----------------------------------------------------------------------- levels

  function Max(a: nat, b: nat): nat {
    if a < b then b else a
  }

  /** The number of levels of a tree, where a value that is no container counts `leaf`: with 0
      this is how deep containers nest. */
  function Height(v: Value, leaf: nat): nat {
    match v
    case List(items) => 1 + HeightItems(items, leaf)
    case Object(members) => 1 + HeightMembers(members, leaf)
    case _ => leaf
  }

  function HeightItems(items: seq<Value>, leaf: nat): nat {
    if items == [] then 0 else Max(HeightItems(items[..|items| - 1], leaf), Height(items[|items| - 1], leaf))
  }

  function HeightMembers(members: seq<Member>, leaf: nat): nat {
    if members == [] then 0
    else Max(HeightMembers(members[..|members| - 1], leaf), Height(members[|members| - 1].value, leaf))
  }

  /** The tree without what lies below `levels` levels: containers on the last level are empty. */
  function Prune(v: Value, levels: nat): Value
    requires levels > 0
  {
    match v
    case List(items) => List(if levels == 1 then [] else PruneItems(items, levels - 1))
    case Object(members) => Object(if levels == 1 then [] else PruneMembers(members, levels - 1))
    case _ => v
  }

  function PruneItems(items: seq<Value>, levels: nat): seq<Value>
    requires levels > 0
  {
    if items == [] then []
    else PruneItems(items[..|items| - 1], levels) + [Prune(items[|items| - 1], levels)]
  }

  function PruneMembers(members: seq<Member>, levels: nat): seq<Member>
    requires levels > 0
  {
    if members == [] then []
    else
      var last := members[|members| - 1];
      PruneMembers(members[..|members| - 1], levels) + [Member(last.key, Prune(last.value, levels))]
  }

  /** A pruned tree fits the levels. */
  lemma {:induction false} PrunedFits(v: Value, levels: nat)
    requires levels > 0
    ensures Height(Prune(v, levels), 1) <= levels
  {
    match v
    case List(items) => if levels > 1 { PrunedItemsFit(items, levels - 1); }
    case Object(members) => if levels > 1 { PrunedMembersFit(members, levels - 1); }
    case _ =>
  }

  lemma {:induction false} PrunedItemsFit(items: seq<Value>, levels: nat)
    requires levels > 0
    ensures HeightItems(PruneItems(items, levels), 1) <= levels
  {
    if items != [] {
      var k := |items| - 1;
      PrunedItemsFit(items[..k], levels);
      PrunedFits(items[k], levels);
      var p := PruneItems(items, levels);
      assert p[..|p| - 1] == PruneItems(items[..k], levels);
    }
  }

  lemma {:induction false} PrunedMembersFit(members: seq<Member>, levels: nat)
    requires levels > 0
    ensures HeightMembers(PruneMembers(members, levels), 1) <= levels
  {
    if members != [] {
      var k := |members| - 1;
      PrunedMembersFit(members[..k], levels);
      PrunedFits(members[k].value, levels);
      var p := PruneMembers(members, levels);
      assert p[..|p| - 1] == PruneMembers(members[..k], levels);
    }
  }

  /** Pruning keeps exactly the trees that fit. */
  lemma PruneKeepsWhatFits(v: Value, levels: nat)
    requires levels > 0
    ensures Prune(v, levels) == v <==> Height(v, 1) <= levels
  {
    PrunedFits(v, levels);
    if Height(v, 1) <= levels {
      PruneKeeps(v, levels);
    }
  }

  lemma {:induction false} PruneKeeps(v: Value, levels: nat)
    requires levels > 0 && Height(v, 1) <= levels
    ensures Prune(v, levels) == v
  {
    match v
    case List(items) => PruneKeepsItems(items, levels - 1);
    case Object(members) => PruneKeepsMembers(members, levels - 1);
    case _ =>
  }

  lemma AtLeastOneLevel(v: Value)
    ensures Height(v, 1) > 0
  {
  }

  lemma {:induction false} PruneKeepsItems(items: seq<Value>, levels: nat)
    requires HeightItems(items, 1) <= levels
    ensures items == if levels == 0 then [] else PruneItems(items, levels)
  {
    hide Height, Prune;
    if items != [] {
      var k := |items| - 1;
      AtLeastOneLevel(items[k]);
      PruneKeepsItems(items[..k], levels);
      PruneKeeps(items[k], levels);
    }
  }

  lemma {:induction false} PruneKeepsMembers(members: seq<Member>, levels: nat)
    requires HeightMembers(members, 1) <= levels
    ensures members == if levels == 0 then [] else PruneMembers(members, levels)
  {
    hide Height, Prune;
    if members != [] {
      var k := |members| - 1;
      AtLeastOneLevel(members[k].value);
      PruneKeepsMembers(members[..k], levels);
      PruneKeeps(members[k].value, levels);
    }
  }

  /** Containers nest no deeper than the tree has levels. */
  lemma {:induction false} NestingFits(v: Value)
    ensures Height(v, 0) <= Height(v, 1)
  {
    match v
    case List(items) => NestingItemsFits(items);
    case Object(members) => NestingMembersFits(members);
    case _ =>
  }

  lemma {:induction false} NestingItemsFits(items: seq<Value>)
    ensures HeightItems(items, 0) <= HeightItems(items, 1)
  {
    if items != [] {
      NestingItemsFits(items[..|items| - 1]);
      NestingFits(items[|items| - 1]);
    }
  }

  lemma {:induction false} NestingMembersFits(members: seq<Member>)
    ensures HeightMembers(members, 0) <= HeightMembers(members, 1)
  {
    if members != [] {
      NestingMembersFits(members[..|members| - 1]);
      NestingFits(members[|members| - 1].value);
    }
  }
}
