/**
 The item that refers to an attachment kept elsewhere (src/sentry_envelope.c).  Its header
 `attachment_length` is an unsigned 64-bit integer, which comes back from the header line as the
 narrowest integer that holds it.
 */
module EnvelopeAttachment {
  import opened Prelude
  import opened Bytes
  import opened Json
  import opened JsonReader
  import opened JsonRebuild
  import opened Jsmn
  import opened Envelope
  import opened EnvelopeRoundTrip

  const REF_MIME: Bytes := "application/vnd.sentry.attachment-ref+json"

  // ----------------------------------------------------------------------------- the item

  /** The headers that say what the attachment is. */
  function Description(filename: Option<Bytes>, kind: Bytes): seq<Member> {
    var typed := SetByKey(SetByKey([], "type", Str("attachment")), "content_type", Str(REF_MIME));
    var named := if filename.Some? then SetByKey(typed, "filename", Str(filename.value)) else typed;
    if kind != [] then SetByKey(named, "attachment_type", Str(kind)) else named
  }

  function RefHeaders(description: seq<Member>, length: nat, payload: Option<Bytes>): seq<Member> {
    var sized := SetByKey(description, "attachment_length", Int(length, Uint64));
    if payload.Some? then SetByKey(sized, "length", Int(ToInt32(|payload.value|), Int32)) else sized
  }

  /** The item for an attachment of `length` bytes.  It has a payload if there is something to say
      about where the attachment is. */
  function AttachmentRef(filename: Option<Bytes>, kind: Bytes, length: nat, payload: Option<Bytes>): Item {
    Item(Object(RefHeaders(Description(filename, kind), length, payload)),
         if payload.Some? then payload.value else [])
  }

  // ---------------------------------------------------------------------------- its headers

  /** String members with different keys, whose lengths are among the given ones. */
  predicate IsText(members: seq<Member>, lengths: set<nat>) {
    && (forall i :: 0 <= i < |members| ==>
          members[i].value.Str? && NUL !in members[i].key && |members[i].key| in lengths)
    && (forall i, j :: 0 <= i < j < |members| ==> members[i].key != members[j].key)
  }

  lemma TextGrows(members: seq<Member>, lengths: set<nat>, key: Bytes, s: Bytes)
    requires IsText(members, lengths) && NUL !in key && |key| !in lengths
    ensures IsText(SetByKey(members, key, Str(s)), lengths + {|key|})
  {
    hide SetByKey;
    NewKeyIsAppended(members, key, Str(s));
  }

  lemma TextWith(members: seq<Member>, lengths: set<nat>, length: nat)
    requires IsText(members, lengths)
    ensures IsText(members, lengths + {length})
  {
  }

  lemma TypedIs()
    ensures IsText(SetByKey(SetByKey([], "type", Str("attachment")), "content_type", Str(REF_MIME)), {4, 12})
  {
    hide SetByKey, IsText;
    NothingIsText();
    TextGrows([], {}, "type", "attachment");
    assert {} + {|"type"|} == {4};
    TextGrows(SetByKey([], "type", Str("attachment")), {4}, "content_type", REF_MIME);
    assert {4} + {|"content_type"|} == {4, 12};
  }

  lemma NamedIs(typed: seq<Member>, filename: Option<Bytes>)
    requires IsText(typed, {4, 12})
    ensures IsText(if filename.Some? then SetByKey(typed, "filename", Str(filename.value)) else typed, {4, 12, 8})
  {
    hide SetByKey, IsText;
    if filename.Some? {
      TextGrows(typed, {4, 12}, "filename", filename.value);
    } else {
      TextWith(typed, {4, 12}, 8);
    }
    assert {4, 12} + {|"filename"|} == {4, 12, 8};
  }

  lemma DescriptionIs(filename: Option<Bytes>, kind: Bytes)
    ensures IsText(Description(filename, kind), {4, 12, 8, 15})
  {
    hide SetByKey, IsText;
    TypedIs();
    var typed := SetByKey(SetByKey([], "type", Str("attachment")), "content_type", Str(REF_MIME));
    NamedIs(typed, filename);
    var named := if filename.Some? then SetByKey(typed, "filename", Str(filename.value)) else typed;
    if kind != [] {
      TextGrows(named, {4, 12, 8}, "attachment_type", kind);
    } else {
      TextWith(named, {4, 12, 8}, 15);
    }
    assert {4, 12, 8} + {|"attachment_type"|} == {4, 12, 8, 15};
  }

  lemma NothingIsText()
    ensures IsText([], {})
  {
  }

  lemma RefHeadersAre(description: seq<Member>, length: nat, payload: Option<Bytes>)
    requires IsText(description, {4, 12, 8, 15})
    ensures RefHeaders(description, length, payload)
         == description + [Member("attachment_length", Int(length, Uint64))] + PayloadHeader(payload)
  {
    var sized := description + [Member("attachment_length", Int(length, Uint64))];
    NewKeyIsAppended(description, "attachment_length", Int(length, Uint64));
    if payload.Some? {
      NewKeyIsAppended(sized, "length", Int(ToInt32(|payload.value|), Int32));
    }
  }

  function PayloadHeader(payload: Option<Bytes>): seq<Member> {
    if payload.Some? then [Member("length", Int(ToInt32(|payload.value|), Int32))] else []
  }

  lemma {:induction false} LookupBehind(front: seq<Member>, m: Member, rest: seq<Member>)
    requires forall i :: 0 <= i < |front| ==> front[i].key != m.key
    ensures Lookup(front + [m] + rest, m.key) == m.value
  {
    var all := front + [m] + rest;
    if front != [] {
      LookupBehind(front[1..], m, rest);
      assert all[1..] == front[1..] + [m] + rest;
    }
  }

  lemma {:induction false} LookupNothing(members: seq<Member>, key: Bytes)
    requires forall i :: 0 <= i < |members| ==> members[i].key != key
    ensures Lookup(members, key) == Null
  {
    if members != [] {
      LookupNothing(members[1..], key);
    }
  }

  lemma RefLengths(description: seq<Member>, length: nat, payload: Option<Bytes>)
    requires IsText(description, {4, 12, 8, 15})
    ensures var members := RefHeaders(description, length, payload);
            && Lookup(members, "attachment_length") == Int(length, Uint64)
            && Lookup(members, "length") ==
                 if payload.Some? then Int(ToInt32(|payload.value|), Int32) else Null
  {
    hide RefHeaders;
    RefHeadersAre(description, length, payload);
    var m := Member("attachment_length", Int(length, Uint64));
    LookupBehind(description, m, PayloadHeader(payload));
    if payload.Some? {
      var last := PayloadHeader(payload)[0];
      LookupBehind(description + [m], last, []);
      assert description + [m] + [last] + [] == description + [m] + [last];
    } else {
      LookupNothing(description + [m], "length");
      assert description + [m] + [] == description + [m];
    }
  }

  /** Strings, one integer and narrow integers behind it: all survive exactly if that one does. */
  lemma OneWide(show: Show, strtod: Strtod, front: seq<Member>, m: Member, rest: seq<Member>)
    requires forall i :: 0 <= i < |front| ==> front[i].value.Str?
    requires m.value.Int? && forall i :: 0 <= i < |rest| ==> rest[i].value.Int? && Narrow(rest[i].value)
    ensures var headers := Object(front + [m] + rest);
            && Height(headers, 1) <= MAX_DEPTH
            && (NumbersSurvive(show, strtod, headers) <==> Narrow(m.value))
  {
    var members := front + [m] + rest;
    assert members[|front|] == m;
    FlatHeight(members);
    hide Height, Narrowest;
    forall i | 0 <= i < |members|
      ensures DoublesSurvive(show, strtod, members[i].value) && (i != |front| ==> Narrow(members[i].value))
    {
      if i < |front| {
        assert members[i] == front[i];
      } else if i > |front| {
        assert members[i] == rest[i - |front| - 1];
      }
    }
  }

  lemma IsCanonicalWith(front: seq<Member>, m: Member, rest: seq<Member>)
    requires IsText(front, {4, 12, 8, 15}) && |m.key| == 17 && NUL !in m.key && Canonical(m.value)
    requires |rest| <= 1 && forall i :: 0 <= i < |rest| ==>
               |rest[i].key| == 6 && NUL !in rest[i].key && Canonical(rest[i].value)
    ensures Canonical(Object(front + [m] + rest))
  {
    var members := front + [m] + rest;
    forall i | 0 <= i < |members| ensures NUL !in members[i].key && Canonical(members[i].value) {
      if i < |front| {
        assert members[i] == front[i];
      } else if i > |front| {
        assert members[i] == rest[i - |front| - 1];
      }
    }
  }

  lemma PayloadHeaderIs(payload: Option<Bytes>)
    ensures |PayloadHeader(payload)| <= 1
    ensures forall m :: m in PayloadHeader(payload) ==>
              |m.key| == 6 && NUL !in m.key && m.value.Int? && Canonical(m.value) && Narrow(m.value)
  {
  }

  lemma TextIsStrings(members: seq<Member>)
    requires IsText(members, {4, 12, 8, 15})
    ensures forall i :: 0 <= i < |members| ==> members[i].value.Str?
  {
  }

  lemma RefHeadersFit(show: Show, strtod: Strtod, description: seq<Member>, length: nat, payload: Option<Bytes>)
    requires IsText(description, {4, 12, 8, 15}) && length <= UINT64_MAX
    ensures var headers := Object(RefHeaders(description, length, payload));
            && Canonical(headers) && Height(headers, 1) <= MAX_DEPTH
            && (NumbersSurvive(show, strtod, headers) <==> length > INT64_MAX)
  {
    hide RefHeaders, Height, NumbersSurvive, PayloadHeader, IsText;
    RefHeadersAre(description, length, payload);
    PayloadHeaderIs(payload);
    var m, rest := Member("attachment_length", Int(length, Uint64)), PayloadHeader(payload);
    assert |m.key| == 17 && NUL !in m.key;
    IsCanonicalWith(description, m, rest);
    TextIsStrings(description);
    OneWide(show, strtod, description, m, rest);
  }

  // -------------------------------------------------------------------------------- restored

  /** The item is restored exactly if the attachment has more than 2^63 - 1 bytes, so never in
      practice, and the payload, if there is one, fits the 32-bit integer of its length header. */
  lemma AttachmentRefIsRestored(show: Show, strtod: Strtod, filename: Option<Bytes>, kind: Bytes, length: nat,
      payload: Option<Bytes>)
    requires length <= UINT64_MAX
    ensures var item := AttachmentRef(filename, kind, length, payload);
            && WellFormed(item)
            && (Restorable(show, strtod, item) <==>
                  length > INT64_MAX && (payload.Some? ==> |payload.value| < 0x8000_0000))
  {
    hide Description, RefHeaders, Canonical, NumbersSurvive, Height, Lookup;
    DescriptionIs(filename, kind);
    RefLengths(Description(filename, kind), length, payload);
    RefHeadersFit(show, strtod, Description(filename, kind), length, payload);
  }

  /** An envelope that holds such an item, for an attachment of up to 2^63 - 1 bytes, is not what is
      read from its own text. */
  lemma AttachmentEnvelopeChanges(show: Show, strtod: Strtod, e: Envelope, i: nat, filename: Option<Bytes>,
      kind: Bytes, length: nat, payload: Option<Bytes>)
    requires e.headers.Object? && Canonical(e.headers) && forall k :: 0 <= k < |e.items| ==> WellFormed(e.items[k])
    requires i < |e.items| && e.items[i] == AttachmentRef(filename, kind, length, payload) && length <= INT64_MAX
    ensures Deserialize(strtod, Serialize(show, e)) != Some(e)
  {
    hide Canonical, WellFormed, Restorable, HeadersSurvive, Deserialize, Serialize, AttachmentRef;
    AttachmentRefIsRestored(show, strtod, filename, kind, length, payload);
    EnvelopeIsRestored(show, strtod, e);
  }

  lemma {:induction false} LookupReread(show: Show, strtod: Strtod, members: seq<Member>, back: seq<Member>, key: Bytes)
    requires |back| == |members|
    requires forall i :: 0 <= i < |members| ==>
               back[i] == Member(members[i].key, Reread(show, strtod, members[i].value))
    ensures Lookup(back, key) == Reread(show, strtod, Lookup(members, key))
  {
    if members == [] {
      assert Reread(show, strtod, Null) == Null;
    } else {
      hide Reread;
      if members[0].key != key {
        LookupReread(show, strtod, members[1..], back[1..], key);
      }
    }
  }

  lemma HeaderIsReread(show: Show, strtod: Strtod, members: seq<Member>, key: Bytes)
    ensures Lookup(RereadMembers(show, strtod, members), key) == Reread(show, strtod, Lookup(members, key))
  {
    forall i | 0 <= i < |members|
      ensures |RereadMembers(show, strtod, members)| == |members|
      ensures RereadMembers(show, strtod, members)[i]
           == Member(members[i].key, Reread(show, strtod, members[i].value))
    {
      RereadMembersAt(show, strtod, members, i);
    }
    assert members == [] ==> RereadMembers(show, strtod, members) == [];
    hide RereadMembers, Reread;
    LookupReread(show, strtod, members, RereadMembers(show, strtod, members), key);
  }

  function AttachmentLength(headers: Value): Value {
    GetByKey(headers, "attachment_length")
  }

  /** The headers of an item as they are read from their line. */
  function ReadBack(show: Show, strtod: Strtod, item: Item): Value {
    FromJson(strtod, HeaderText(show, item.headers))
  }

  /** What changes is the type of the header: it is read as the narrowest integer, and asked for as
      the unsigned integer that it was, it is zero unless it is larger than 2^63 - 1. */
  lemma AttachmentLengthIsNarrowed(show: Show, strtod: Strtod, filename: Option<Bytes>, kind: Bytes, length: nat,
      payload: Option<Bytes>)
    requires length <= UINT64_MAX
    ensures var item := AttachmentRef(filename, kind, length, payload);
            && AttachmentLength(item.headers) == Int(length, Uint64)
            && AttachmentLength(ReadBack(show, strtod, item)) == Int(length, Narrowest(length))
            && (AsUint64(AttachmentLength(ReadBack(show, strtod, item))) == length <==>
                  length == 0 || length > INT64_MAX)
  {
    hide Description, RefHeaders, Canonical, NumbersSurvive, Height, Lookup, FromJson, HeaderText, Print, Prune,
         RereadMembers, HeadersSurvive;
    var description := Description(filename, kind);
    DescriptionIs(filename, kind);
    RefLengths(description, length, payload);
    RefHeadersFit(show, strtod, description, length, payload);
    var members := RefHeaders(description, length, payload);
    HeaderLine(show, strtod, Object(members));
    PruneKeepsWhatFits(Object(members), MAX_DEPTH);
    HeaderIsReread(show, strtod, members, "attachment_length");
  }
}
