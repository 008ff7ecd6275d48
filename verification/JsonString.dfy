/**
 JSON strings (src/sentry_json.c): escaping, and decoding in the buffer that holds the text.

 `Decode` is the decoder as a function of the text; `DecodeInPlace` is the loop that overwrites
 its own buffer and stops at the terminating zero byte.
 */
module JsonString {
  import opened Prelude
  import opened Bytes

  // --------------------------------------------------------------------- escaping

  function EscapeByte(c: Byte): Bytes {
    if c == '\\' then "\\\\"
    else if c == '"' then "\\\""
    else if c as int == 8 then "\\b"
    else if c as int == 12 then "\\f"
    else if c == '\n' then "\\n"
    else if c == '\r' then "\\r"
    else if c == '\t' then "\\t"
    else if c as int < 32 then "\\u00" + [HexDigit(c as int / 16), HexDigit(c as int % 16)]
    else [c]
  }

  function Escape(s: Bytes): Bytes {
    if s == [] then [] else EscapeByte(s[0]) + Escape(s[1..])
  }

  // --------------------------------------------------------------------- decoding

  /** The UTF-8 encoding of a code point (section 3 of RFC 3629). */
  function Utf8(c: nat): (r: Bytes)
    ensures c < 0x800 ==> |r| <= 2
    ensures c < 0x10000 ==> |r| <= 3
    ensures |r| <= 4
  {
    if c < 0x80 then [ByteOf(c)]
    else if c < 0x800 then [ByteOf(0xC0 + c / 0x40), ByteOf(0x80 + c % 0x40)]
    else if c < 0x10000 then
      [ByteOf(0xE0 + c / 0x1000), ByteOf(0x80 + c / 0x40 % 0x40), ByteOf(0x80 + c % 0x40)]
    else if c <= 0x10FFFF then
      [ByteOf(0xF0 + c / 0x40000), ByteOf(0x80 + c / 0x1000 % 0x40), ByteOf(0x80 + c / 0x40 % 0x40),
       ByteOf(0x80 + c % 0x40)]
    else []
  }

  predicate IsLead(c: int) {
    0xD800 <= c < 0xDC00
  }

  predicate IsTrail(c: int) {
    0xDC00 <= c < 0xE000
  }

  function SurrogateValue(lead: int, trail: int): (c: int)
    requires IsLead(lead) && IsTrail(trail)
    ensures 0x10000 <= c <= 0x10FFFF
  {
    (lead - 0xD800) * 0x400 + (trail - 0xDC00) + 0x10000
  }

  /** The value of the first four characters, if they are hexadecimal digits. */
  function Hex4(s: Bytes): (r: Option<nat>)
    ensures r.Some? ==> |s| >= 4 && r.value < 0x10000
  {
    if |s| < 4 then None
    else
      var a, b, c, d := HexValue(s[0]), HexValue(s[1]), HexValue(s[2]), HexValue(s[3]);
      if a.Some? && b.Some? && c.Some? && d.Some?
      then Some(((a.value * 16 + b.value) * 16 + c.value) * 16 + d.value)
      else None
  }

  /** What one character or escape sequence at the front of `s` stands for, and its length. */
  datatype Piece = Bad | Piece(bytes: Bytes, length: nat)

  function UnicodePiece(s: Bytes): (r: Piece)
    requires |s| >= 2
    ensures r.Piece? ==> |r.bytes| <= r.length <= |s| && r.length >= 2
  {
    match Hex4(s[2..])
    case None => Bad
    case Some(u) =>
      if IsLead(u) then
        if |s| < 8 || s[6] != '\\' || s[7] != 'u' then Bad
        else
          (match Hex4(s[8..])
           case None => Bad
           case Some(trail) => if IsTrail(trail) then Piece(Utf8(SurrogateValue(u, trail)), 12) else Bad)
      else if IsTrail(u) then Bad
      else Piece(Utf8(u), 6)
  }

  function SimpleEscape(c: Byte): Option<Byte> {
    if c == '"' || c == '\\' || c == '/' then Some(c)
    else if c == 'b' then Some(ByteOf(8))
    else if c == 'f' then Some(ByteOf(12))
    else if c == 'n' then Some('\n')
    else if c == 'r' then Some('\r')
    else if c == 't' then Some('\t')
    else None
  }

  function FirstPiece(s: Bytes): (r: Piece)
    requires s != []
    ensures r.Piece? ==> |r.bytes| <= r.length <= |s| && r.length >= 1
  {
    if s[0] != '\\' then Piece([s[0]], 1)
    else if |s| < 2 then Bad
    else if s[1] == 'u' then UnicodePiece(s)
    else if SimpleEscape(s[1]).Some? then Piece([SimpleEscape(s[1]).value], 2)
    else Bad
  }

  function Prepend(front: Bytes, rest: Option<Bytes>): Option<Bytes> {
    if rest.Some? then Some(front + rest.value) else None
  }

  function Decode(s: Bytes): (r: Option<Bytes>)
    ensures r.Some? ==> |r.value| <= |s|
    decreases |s|
  {
    if s == [] then Some([])
    else
      var p := FirstPiece(s);
      if p.Bad? then None else Prepend(p.bytes, Decode(s[p.length..]))
  }

  // ------------------------------------------------------------------- round trip

  lemma HexOfByte(n: nat)
    requires n < 32
    ensures Hex4("00" + [HexDigit(n / 16), HexDigit(n % 16)]) == Some(n)
  {
  }

  lemma Hex4Prefix(s: Bytes, t: Bytes)
    requires |s| == 4
    ensures Hex4(s + t) == Hex4(s)
  {
  }

  lemma {:induction false} EscapedByteDecodes(c: Byte, rest: Bytes)
    ensures FirstPiece(EscapeByte(c) + rest) == Piece([c], |EscapeByte(c)|)
  {
    var e := EscapeByte(c) + rest;
    if 2 < |EscapeByte(c)| {
      var hex := "00" + [HexDigit(c as int / 16), HexDigit(c as int % 16)];
      HexOfByte(c as int);
      assert e[2..] == hex + rest;
      Hex4Prefix(hex, rest);
    }
  }

  lemma DecodePiece(e: Bytes, bytes: Bytes, back: Bytes)
    requires e != [] && FirstPiece(e + back) == Piece(bytes, |e|)
    ensures Decode(e + back) == Prepend(bytes, Decode(back))
  {
    hide FirstPiece;
    assert (e + back)[|e|..] == back;
  }

  lemma PrependTwice(a: Bytes, b: Bytes, rest: Option<Bytes>)
    ensures Prepend(a, Prepend(b, rest)) == Prepend(a + b, rest)
  {
    if rest.Some? {
      assert a + (b + rest.value) == a + b + rest.value;
    }
  }

  lemma {:induction false} EscapedPrefixDecodes(s: Bytes, rest: Bytes)
    ensures Decode(Escape(s) + rest) == Prepend(s, Decode(rest))
  {
    if s == [] {
      assert Escape(s) + rest == rest;
      assert Decode(rest).Some? ==> s + Decode(rest).value == Decode(rest).value;
    } else {
      var e, back := EscapeByte(s[0]), Escape(s[1..]) + rest;
      EscapedByteDecodes(s[0], back);
      assert e != [];
      hide EscapeByte, FirstPiece, Prepend, Decode;
      DecodePiece(e, [s[0]], back);
      EscapedPrefixDecodes(s[1..], rest);
      assert Escape(s) + rest == e + back;
      PrependTwice([s[0]], s[1..], Decode(rest));
      assert [s[0]] + s[1..] == s;
    }
  }

  /** Decoding what was escaped gives back every string, with zero bytes in it or not. */
  lemma {:induction false} EscapeRoundTrip(s: Bytes)
    ensures Decode(Escape(s)) == Some(s)
  {
    EscapedPrefixDecodes(s, []);
    assert Escape(s) + [] == Escape(s);
    assert s + [] == s;
  }

  lemma {:induction false} EscapePush(s: Bytes, c: Byte)
    ensures Escape(s + [c]) == Escape(s) + EscapeByte(c)
  {
    hide EscapeByte;
    if s != [] {
      assert (s + [c])[1..] == s[1..] + [c];
      EscapePush(s[1..], c);
    }
  }

  // ----------------------------------------------------------------- code points

  predicate IsCodePoint(c: nat) {
    c <= 0x10FFFF && !IsLead(c) && !IsTrail(c)
  }

  function Hex4Of(u: nat): (r: Bytes)
    requires u < 0x10000
    ensures |r| == 4
  {
    [HexDigit(u / 0x1000), HexDigit(u / 0x100 % 16), HexDigit(u / 0x10 % 16), HexDigit(u % 16)]
  }

  /** The escape of a code point by its number, with a surrogate pair where it needs one
      (section 7 of RFC 8259). */
  function EscapeCodePoint(c: nat): Bytes
    requires IsCodePoint(c)
  {
    if c < 0x10000 then "\\u" + Hex4Of(c)
    else "\\u" + Hex4Of(0xD800 + (c - 0x10000) / 0x400) + "\\u" + Hex4Of(0xDC00 + (c - 0x10000) % 0x400)
  }

  /** The code point that a UTF-8 sequence stands for. */
  function FromUtf8(b: Bytes): int {
    if |b| == 1 then b[0] as int
    else if |b| == 2 then (b[0] as int - 0xC0) * 0x40 + (b[1] as int - 0x80)
    else if |b| == 3 then (b[0] as int - 0xE0) * 0x1000 + (b[1] as int - 0x80) * 0x40 + (b[2] as int - 0x80)
    else if |b| == 4 then
      (b[0] as int - 0xF0) * 0x40000 + (b[1] as int - 0x80) * 0x1000 + (b[2] as int - 0x80) * 0x40
      + (b[3] as int - 0x80)
    else -1
  }

  lemma Hex4OfIsRead(u: nat)
    requires u < 0x10000
    ensures Hex4(Hex4Of(u)) == Some(u)
  {
    assert u / 0x100 == u / 0x1000 * 16 + u / 0x100 % 16;
    assert u / 0x10 == u / 0x100 * 16 + u / 0x10 % 16;
    assert u == u / 0x10 * 16 + u % 16;
  }

  lemma Utf8IsRead(c: nat)
    requires c <= 0x10FFFF
    ensures FromUtf8(Utf8(c)) == c
  {
    assert c / 0x40 == c / 0x1000 * 0x40 + c / 0x40 % 0x40;
    assert c / 0x1000 == c / 0x40000 * 0x40 + c / 0x1000 % 0x40;
  }

  lemma EscapedCodePointIsOnePiece(c: nat)
    requires IsCodePoint(c)
    ensures FirstPiece(EscapeCodePoint(c)) == Piece(Utf8(c), |EscapeCodePoint(c)|)
  {
    hide Utf8, Hex4Of, Hex4;
    var e := EscapeCodePoint(c);
    if c < 0x10000 {
      Hex4OfIsRead(c);
      assert e[2..] == Hex4Of(c);
    } else {
      var lead, trail := 0xD800 + (c - 0x10000) / 0x400, 0xDC00 + (c - 0x10000) % 0x400;
      Hex4OfIsRead(lead);
      Hex4OfIsRead(trail);
      assert e[2..] == Hex4Of(lead) + ("\\u" + Hex4Of(trail));
      Hex4Prefix(Hex4Of(lead), "\\u" + Hex4Of(trail));
      assert e[8..] == Hex4Of(trail);
    }
  }

  /** Every code point, escaped by its number, decodes to the UTF-8 sequence that stands for it;
      half a surrogate pair decodes to nothing. */
  lemma {:induction false} CodePointRoundTrip(c: nat)
    requires c <= 0x10FFFF
    ensures IsCodePoint(c) ==>
              Decode(EscapeCodePoint(c)).Some? && FromUtf8(Decode(EscapeCodePoint(c)).value) == c
    ensures !IsCodePoint(c) ==> Decode("\\u" + Hex4Of(c)).None?
  {
    if IsCodePoint(c) {
      var e := EscapeCodePoint(c);
      EscapedCodePointIsOnePiece(c);
      Utf8IsRead(c);
      hide *;
      assert e + [] == e;
      DecodePiece(e, Utf8(c), []);
      DecodeEmpty();
      PrependToEmpty(Utf8(c));
    } else {
      Hex4OfIsRead(c);
      hide Hex4Of, Hex4;
      assert ("\\u" + Hex4Of(c))[2..] == Hex4Of(c);
    }
  }

  /** Escaped text holds no control character: no zero byte and no line break. */
  lemma {:induction false} EscapedIsPrintable(s: Bytes, i: nat)
    requires i < |Escape(s)|
    ensures Escape(s)[i] as int >= 32
  {
    if i >= |EscapeByte(s[0])| {
      EscapedIsPrintable(s[1..], i - |EscapeByte(s[0])|);
    }
  }

  // --------------------------------------------------------------------- in place

  /** `buf` holds the text `s`, closed by its first zero byte. */
  ghost predicate Holds(buf: array<Byte>, s: Bytes)
    reads buf
  {
    && |s| < buf.Length
    && buf[..|s|] == s
    && buf[|s|] == NUL
    && NUL !in s
  }

  function Digits(s: Bytes): nat {
    if s == [] then 0
    else Digits(s[..|s| - 1]) * 16 + match HexValue(s[|s| - 1]) case Some(v) => v case None => 0
  }

  lemma FourDigits(s: Bytes)
    requires |s| >= 4 && forall k :: 0 <= k < 4 ==> HexValue(s[k]).Some?
    ensures Hex4(s) == Some(Digits(s[..4]))
  {
    assert s[..4][..3] == s[..3];
    assert s[..3][..2] == s[..2];
    assert s[..2][..1] == s[..1];
    assert s[..1][..0] == [];
    assert Digits(s[..1]) == HexValue(s[0]).value;
    assert Digits(s[..2]) == HexValue(s[0]).value * 16 + HexValue(s[1]).value;
    assert Digits(s[..3]) == Digits(s[..2]) * 16 + HexValue(s[2]).value;
  }

  /** The value of four hexadecimal digits at `at`, or -1.  Reading stops at the first character
      that is no digit, so never behind the terminator. */
  method ReadHex4(buf: array<Byte>, at: nat, ghost end: nat) returns (u: int)
    requires at <= end < buf.Length && buf[end] == NUL
    ensures u == match Hex4(buf[at..end]) case Some(v) => v case None => -1
  {
    u := 0;
    ghost var s := buf[at..end];
    for i := 0 to 4
      invariant at + i <= end
      invariant forall k :: 0 <= k < i ==> HexValue(s[k]).Some?
      invariant u == Digits(s[..i])
    {
      var digit := HexValue(buf[at + i]);
      if digit.None? {
        assert i < |s| ==> s[i] == buf[at + i];
        return -1;
      }
      assert s[..i + 1][..i] == s[..i];
      u := u * 16 + digit.value;
    }
    FourDigits(s);
  }

  /** Writes the bytes of `piece` behind the first `output` bytes. */
  method Put(buf: array<Byte>, output: nat, piece: Bytes)
    requires output + |piece| <= buf.Length
    modifies buf
    ensures buf[..output + |piece|] == old(buf[..output]) + piece
    ensures forall k :: output + |piece| <= k < buf.Length ==> buf[k] == old(buf[k])
  {
    for i := 0 to |piece|
      invariant buf[..output + i] == old(buf[..output]) + piece[..i]
      invariant forall k :: output + i <= k < buf.Length ==> buf[k] == old(buf[k])
    {
      buf[output + i] := piece[i];
    }
  }

  /** The `\u` escape whose digits start at `input`: what it stands for, and where it ends. */
  method ReadUnicode(buf: array<Byte>, input: nat, ghost end: nat) returns (u: int, next: nat)
    requires 2 <= input <= end < buf.Length && buf[end] == NUL && NUL !in buf[input..end]
    ensures var p := UnicodePiece("\\u" + buf[input..end]);
            if u < 0 then p.Bad? else input <= next <= end && p == Piece(Utf8(u), next - input + 2)
  {
    ghost var s := buf[input..end];
    ghost var whole := "\\u" + s;
    assert whole[2..] == s;
    u := ReadHex4(buf, input, end);
    next := input;
    if u < 0 {
      return;
    }
    next := input + 4;
    if IsLead(u) {
      assert next < end ==> buf[next] == s[4] == whole[6];
      if buf[next] != '\\' || buf[next + 1] != 'u' {
        return -1, next;
      }
      next := next + 2;
      assert whole[8..] == buf[next..end];
      var trail := ReadHex4(buf, next, end);
      if trail < 0 || !IsTrail(trail) {
        return -1, next;
      }
      next := next + 4;
      u := SurrogateValue(u, trail);
    } else if IsTrail(u) {
      return -1, next;
    }
  }

  /** One round of the loop: the piece at `input` is read, and the text behind it is what is left
      to decode. */
  lemma {:induction false} DecodeRound(s: Bytes, input: nat, done: Bytes, piece: Bytes, next: nat)
    requires input < next <= |s|
    requires Decode(s) == Prepend(done, Decode(s[input..]))
    requires FirstPiece(s[input..]) == Piece(piece, next - input)
    ensures Decode(s) == Prepend(done + piece, Decode(s[next..]))
  {
    hide FirstPiece, Decode, Prepend;
    assert s[input..] == s[input..next] + s[next..];
    DecodePiece(s[input..next], piece, s[next..]);
    PrependTwice(done, piece, Decode(s[next..]));
  }

  /** Reads one character or escape sequence at `input`. */
  method ReadPiece(buf: array<Byte>, input: nat, ghost s: Bytes) returns (ok: bool, piece: Bytes, next: nat)
    requires input < |s| < buf.Length && NUL !in s
    requires buf[|s|] == NUL && forall k :: input <= k < |s| ==> buf[k] == s[k]
    ensures var p := FirstPiece(s[input..]);
            if ok then input < next <= |s| && p == Piece(piece, next - input) else p.Bad?
  {
    hide UnicodePiece, Utf8;
    ghost var rest := s[input..];
    assert rest[0] == buf[input];
    next, piece := input + 1, [buf[input]];
    if buf[input] == '\\' {
      assert next < |s| ==> rest[1] == s[next];
      var e := buf[next];
      next := next + 1;
      if SimpleEscape(e).Some? {
        piece := [SimpleEscape(e).value];
      } else if e == 'u' {
        var u;
        assert rest == "\\u" + buf[next..|s|];
        u, next := ReadUnicode(buf, next, |s|);
        if u < 0 {
          return false, [], next;
        }
        piece := Utf8(u);
      } else {
        return false, [], next;
      }
    }
    ok := true;
  }

  /** The decoder that overwrites its buffer: it gives what the decoder on text gives, keeps
      everything behind the terminator, and never reads there, since the terminator may be the
      last element of the buffer. */
  method DecodeInPlace(buf: array<Byte>, ghost s: Bytes) returns (ok: bool, length: nat)
    requires Holds(buf, s)
    modifies buf
    ensures ok <==> Decode(s).Some?
    ensures ok ==> length <= |s| && buf[..length] == Decode(s).value && buf[length] == NUL
    ensures forall k :: |s| < k < buf.Length ==> buf[k] == old(buf[k])
  {
    hide Decode, Prepend;
    var input, output := 0, 0;
    Start(s);
    while buf[input] != NUL
      invariant 0 <= output <= input <= |s| < buf.Length
      invariant buf[|s|] == NUL && forall k :: input <= k < |s| ==> buf[k] == s[k]
      invariant forall k :: |s| < k < buf.Length ==> buf[k] == old(buf[k])
      invariant Decode(s) == Prepend(buf[..output], Decode(s[input..]))
      decreases |s| - input
    {
      var good, piece, next := ReadPiece(buf, input, s);
      if !good {
        StuckAt(s, input, buf[..output]);
        return false, 0;
      }
      DecodeRound(s, input, buf[..output], piece, next);
      Put(buf, output, piece);
      input, output := next, output + |piece|;
    }
    AtEnd(s, buf[..output]);
    buf[output] := NUL;
    return true, output;
  }

  lemma {:induction false} Start(s: Bytes)
    ensures Decode(s) == Prepend([], Decode(s[0..]))
  {
    assert s[0..] == s;
    assert Decode(s).Some? ==> [] + Decode(s).value == Decode(s).value;
  }

  lemma PrependToEmpty(done: Bytes)
    ensures Prepend(done, Some([])) == Some(done)
  {
    assert done + [] == done;
  }

  lemma DecodeEmpty()
    ensures Decode([]) == Some([])
  {
  }

  lemma {:induction false} AtEnd(s: Bytes, done: Bytes)
    requires Decode(s) == Prepend(done, Decode(s[|s|..]))
    ensures Decode(s) == Some(done)
  {
    hide *;
    PrependToEmpty(done);
    DecodeEmpty();
    assert s[|s|..] == [];
  }

  lemma {:induction false} StuckAt(s: Bytes, input: nat, done: Bytes)
    requires input < |s| && FirstPiece(s[input..]).Bad?
    requires Decode(s) == Prepend(done, Decode(s[input..]))
    ensures Decode(s).None?
  {
    hide FirstPiece;
  }

  // --------------------------------------------------------------------- the standard

  /** The two-character escapes of section 7 of RFC 8259, by the letter behind the backslash. */
  const STANDARD: map<char, nat> :=
    map['"' := 0x22, '\\' := 0x5C, '/' := 0x2F, 'b' := 0x08, 'f' := 0x0C, 'n' := 0x0A, 'r' := 0x0D, 't' := 0x09]

  /** Every byte is escaped as the standard says: by a two-character escape that stands for it, by its
      number if it is another control character, and otherwise, if it is neither a quote nor a
      backslash, by itself. */
  lemma EscapeIsStandard(c: Byte)
    ensures var e := EscapeByte(c);
            || (|e| == 2 && e[0] == '\\' && e[1] in STANDARD && STANDARD[e[1]] == c as int)
            || (|e| == 6 && e[..2] == "\\u" && Hex4(e[2..]) == Some(c as int) && c as int < 0x20)
            || (e == [c] && c as int >= 0x20 && c != '"' && c != '\\')
  {
    if c as int < 32 && |EscapeByte(c)| == 6 {
      HexOfByte(c as int);
      assert EscapeByte(c)[2..] == "00" + [HexDigit(c as int / 16), HexDigit(c as int % 16)];
    }
  }

  /** Each two-character escape of the standard decodes to what it stands for, and no other is known. */
  lemma StandardIsDecoded(c: Byte)
    requires c != 'u'
    ensures Decode(['\\', c]) == if c in STANDARD then Some([ByteOf(STANDARD[c])]) else None
  {
    var s := ['\\', c];
    assert s[2..] == [];
    assert Decode([]) == Some([]);
    assert c in STANDARD ==> [ByteOf(STANDARD[c])] + [] == [ByteOf(STANDARD[c])];
  }
}
