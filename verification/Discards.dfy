/**
 What is recorded about items that are dropped (src/sentry_envelope.c): items held back by a
 rate limit are recorded when the envelope is serialized, the others when it is discarded.
 */
module Discards {
  import opened Prelude
  import opened Bytes
  import opened Json
  import opened Envelope

  datatype Reason =
    QueueOverflow | CacheOverflow | RatelimitBackoff | NetworkError | SampleRate | BeforeSend | SendError

  datatype Category =
    | ErrorItem | SessionItem | TransactionItem | AttachmentItem | LogItem | FeedbackItem | MetricItem | ReplayItem

  /** A counter of discards. */
  datatype Cell = Cell(reason: Reason, category: Category)

  /** The categories of the rate limiter that are disabled, if there is a limiter. */
  type Limiter = Option<set<Category>>

  function TypeOf(item: Item): Bytes {
    StringHeader(item.headers, "type")
  }

  /** The rate limiter category of an item; internal items have none. */
  function LimitCategory(item: Item): Option<Category> {
    var ty := TypeOf(item);
    if ty == "session" then Some(SessionItem)
    else if ty == "transaction" then Some(TransactionItem)
    else if ty == "replay_video" then Some(ReplayItem)
    else if ty == "client_report" then None
    else if ty == "attachment" then
      if StringHeader(item.headers, "attachment_type") == "event.minidump" then Some(ErrorItem)
      else Some(AttachmentItem)
    else if ty == "log" then Some(LogItem)
    else if ty == "feedback" then Some(FeedbackItem)
    else if ty == "trace_metric" then Some(MetricItem)
    else Some(ErrorItem)
  }

  /** The category under which a discarded item is counted. */
  function DataCategory(item: Item): Category {
    var ty := TypeOf(item);
    if ty == "session" then SessionItem
    else if ty == "transaction" then TransactionItem
    else if ty == "attachment" then AttachmentItem
    else if ty == "log" then LogItem
    else if ty == "feedback" then FeedbackItem
    else if ty == "trace_metric" then MetricItem
    else if ty == "replay_video" then ReplayItem
    else ErrorItem
  }

  predicate Internal(item: Item) {
    LimitCategory(item).None?
  }

  /** An item that attachments depend on, and that is held back. */
  predicate BlockedParent(item: Item, disabled: set<Category>) {
    match LimitCategory(item)
    case Some(c) => (c == ErrorItem || c == TransactionItem || c == FeedbackItem) && c in disabled
    case None => false
  }

  /** The verdict on an item: its category is disabled, or it is an attachment in an envelope with
      a parent that is held back. */
  predicate Limited(items: seq<Item>, item: Item, limiter: Limiter) {
    && limiter.Some?
    && LimitCategory(item).Some?
    && (|| LimitCategory(item).value in limiter.value
        || (&& LimitCategory(item).value == AttachmentItem
            && exists i :: 0 <= i < |items| && BlockedParent(items[i], limiter.value)))
  }

  method IsRatelimited(items: seq<Item>, item: Item, limiter: Limiter) returns (r: bool)
    ensures r == Limited(items, item, limiter)
  {
    if limiter.None? {
      return false;
    }
    var category := LimitCategory(item);
    if category.None? {
      return false;
    }
    if category.value in limiter.value {
      return true;
    }
    if category.value != AttachmentItem {
      return false;
    }
    for i := 0 to |items|
      invariant forall k :: 0 <= k < i ==> !BlockedParent(items[k], limiter.value)
    {
      if BlockedParent(items[i], limiter.value) {
        return true;
      }
    }
    return false;
  }

  // ------------------------------------------------------------------- what is recorded

  /** The items that are serialized. */
  function Kept(all: seq<Item>, items: seq<Item>, limiter: Limiter): seq<Item> {
    if items == [] then []
    else
      var last := items[|items| - 1];
      Kept(all, items[..|items| - 1], limiter) + if Limited(all, last, limiter) then [] else [last]
  }

  /** What serialization records for an item of an envelope with the items `all`. */
  function Backoff(all: seq<Item>, item: Item, limiter: Limiter): multiset<Cell> {
    if Limited(all, item, limiter) then multiset{Cell(RatelimitBackoff, DataCategory(item))} else multiset{}
  }

  function Backoffs(all: seq<Item>, items: seq<Item>, limiter: Limiter): multiset<Cell> {
    if items == [] then multiset{}
    else Backoffs(all, items[..|items| - 1], limiter) + Backoff(all, items[|items| - 1], limiter)
  }

  /** What discarding records. */
  function Drop(all: seq<Item>, item: Item, reason: Reason, limiter: Limiter): multiset<Cell> {
    if Internal(item) || Limited(all, item, limiter) then multiset{} else multiset{Cell(reason, DataCategory(item))}
  }

  function Drops(all: seq<Item>, items: seq<Item>, reason: Reason, limiter: Limiter): multiset<Cell> {
    if items == [] then multiset{}
    else Drops(all, items[..|items| - 1], reason, limiter) + Drop(all, items[|items| - 1], reason, limiter)
  }

  lemma {:induction false} NextRecorded(all: seq<Item>, items: seq<Item>, i: nat, reason: Reason, limiter: Limiter)
    requires i < |items|
    ensures Kept(all, items[..i + 1], limiter)
         == Kept(all, items[..i], limiter) + if Limited(all, items[i], limiter) then [] else [items[i]]
    ensures Backoffs(all, items[..i + 1], limiter)
         == Backoffs(all, items[..i], limiter) + Backoff(all, items[i], limiter)
    ensures Drops(all, items[..i + 1], reason, limiter)
         == Drops(all, items[..i], reason, limiter) + Drop(all, items[i], reason, limiter)
  {
    hide Limited, Backoff, Drop;
    assert items[..i + 1][..i] == items[..i];
  }

  lemma TextOfOneMore(show: Show, headers: Value, kept: seq<Item>, item: Item)
    ensures Serialize(show, Envelope(headers, kept + [item]))
         == Serialize(show, Envelope(headers, kept)) + "\n" + HeaderText(show, item.headers) + "\n" + item.payload
  {
    hide HeaderText;
    var more := kept + [item];
    assert more[..|kept| + 1] == more && more[..|kept|] == kept;
    ItemsTextPush(show, more, |kept|);
    hide ItemsText;
    assert HeaderText(show, headers) + (ItemsText(show, kept) + ItemText(show, item))
        == HeaderText(show, headers) + ItemsText(show, kept) + "\n" + HeaderText(show, item.headers) + "\n"
            + item.payload;
  }

  method SerializeRatelimited(show: Show, e: Envelope, limiter: Limiter)
      returns (text: Option<Bytes>, recorded: multiset<Cell>)
    ensures recorded == Backoffs(e.items, e.items, limiter)
    ensures var kept := Kept(e.items, e.items, limiter);
            text == if kept == [] then None else Some(Serialize(show, Envelope(e.headers, kept)))
  {
    hide Print, Prune, Limited, DataCategory, Serialize;
    recorded := multiset{};
    var headers := new JsonWriter.Writer(show);
    headers.WriteDocument(e.headers);
    var out := headers.out;
    HeadersOnly(show, e.headers);
    var serialized := 0;
    for i := 0 to |e.items|
      invariant recorded == Backoffs(e.items, e.items[..i], limiter)
      invariant serialized == |Kept(e.items, e.items[..i], limiter)|
      invariant out == Serialize(show, Envelope(e.headers, Kept(e.items, e.items[..i], limiter)))
    {
      hide Kept, Backoffs, HeaderText;
      var item := e.items[i];
      NextRecorded(e.items, e.items, i, SendError, limiter);
      var limited := IsRatelimited(e.items, item, limiter);
      ghost var kept := Kept(e.items, e.items[..i], limiter);
      if limited {
        recorded := recorded + multiset{Cell(RatelimitBackoff, DataCategory(item))};
        assert kept + [] == kept;
      } else {
        TextOfOneMore(show, e.headers, kept, item);
        out := SerializeItem(show, out, item);
        serialized := serialized + 1;
      }
    }
    assert e.items[..|e.items|] == e.items;
    text := if serialized == 0 then None else Some(out);
  }

  lemma HeadersOnly(show: Show, headers: Value)
    ensures Serialize(show, Envelope(headers, [])) == HeaderText(show, headers)
  {
    hide HeaderText;
    assert HeaderText(show, headers) + [] == HeaderText(show, headers);
  }

  method Discard(e: Envelope, reason: Reason, limiter: Limiter) returns (recorded: multiset<Cell>)
    ensures recorded == Drops(e.items, e.items, reason, limiter)
  {
    hide Limited, DataCategory, LimitCategory;
    recorded := multiset{};
    for i := 0 to |e.items|
      invariant recorded == Drops(e.items, e.items[..i], reason, limiter)
    {
      hide Drops;
      var item := e.items[i];
      NextRecorded(e.items, e.items, i, reason, limiter);
      if Internal(item) {
        continue;
      }
      var limited := IsRatelimited(e.items, item, limiter);
      if limited {
        continue;
      }
      recorded := recorded + multiset{Cell(reason, DataCategory(item))};
    }
    assert e.items[..|e.items|] == e.items;
  }

  // --------------------------------------------------------------------------- theorems

  /** The number of discards of a category, for whatever reason. */
  function Total(counts: multiset<Cell>, c: Category): nat {
    counts[Cell(QueueOverflow, c)] + counts[Cell(CacheOverflow, c)] + counts[Cell(RatelimitBackoff, c)]
    + counts[Cell(NetworkError, c)] + counts[Cell(SampleRate, c)] + counts[Cell(BeforeSend, c)]
    + counts[Cell(SendError, c)]
  }

  /** The number of items of a category that are not internal. */
  function External(items: seq<Item>, c: Category): nat {
    if items == [] then 0
    else
      var last := items[|items| - 1];
      External(items[..|items| - 1], c) + if !Internal(last) && DataCategory(last) == c then 1 else 0
  }

  lemma TotalAppend(a: multiset<Cell>, b: multiset<Cell>, c: Category)
    ensures Total(a + b, c) == Total(a, c) + Total(b, c)
  {
  }

  lemma OneDiscard(all: seq<Item>, item: Item, reason: Reason, limiter: Limiter, c: Category)
    ensures Total(Backoff(all, item, limiter), c) + Total(Drop(all, item, reason, limiter), c)
         == if !Internal(item) && DataCategory(item) == c then 1 else 0
    ensures forall cell :: cell in Backoff(all, item, limiter) ==> cell.reason == RatelimitBackoff
    ensures forall cell :: cell in Drop(all, item, reason, limiter) ==> cell.reason == reason
  {
    assert Limited(all, item, limiter) ==> !Internal(item);
    hide Limited, Internal, DataCategory;
  }

  lemma {:induction false} OneDiscardEach(all: seq<Item>, items: seq<Item>, reason: Reason, limiter: Limiter,
      c: Category)
    ensures Total(Backoffs(all, items, limiter), c) + Total(Drops(all, items, reason, limiter), c) == External(items, c)
    ensures forall cell :: cell in Backoffs(all, items, limiter) ==> cell.reason == RatelimitBackoff
    ensures forall cell :: cell in Drops(all, items, reason, limiter) ==> cell.reason == reason
  {
    hide Limited, Internal, DataCategory, Backoff, Drop;
    if items != [] {
      var front, last := items[..|items| - 1], items[|items| - 1];
      OneDiscardEach(all, front, reason, limiter, c);
      OneDiscard(all, last, reason, limiter, c);
      TotalAppend(Backoffs(all, front, limiter), Backoff(all, last, limiter), c);
      TotalAppend(Drops(all, front, reason, limiter), Drop(all, last, reason, limiter), c);
    }
  }

  /** Serializing an envelope under fixed verdicts and then discarding it records, in every
      category, one discard for each item that is not internal and none for those that are; what
      the rate limit held back is recorded as such, and everything else under the given reason. */
  lemma {:induction false} ExactlyOneDiscardPerItem(e: Envelope, reason: Reason, limiter: Limiter, c: Category)
    ensures var counts := Backoffs(e.items, e.items, limiter) + Drops(e.items, e.items, reason, limiter);
            && Total(counts, c) == External(e.items, c)
            && forall cell :: cell in counts ==> cell.reason == RatelimitBackoff || cell.reason == reason
  {
    OneDiscardEach(e.items, e.items, reason, limiter, c);
    TotalAppend(Backoffs(e.items, e.items, limiter), Drops(e.items, e.items, reason, limiter), c);
    hide Backoffs, Drops, External, Total;
  }

  // ---------------------------------------------------------------- verdicts and headers

  /** An attachment of an event, by its headers; a minidump is the event itself. */
  predicate IsPlainAttachment(item: Item) {
    TypeOf(item) == "attachment" && StringHeader(item.headers, "attachment_type") != "event.minidump"
  }

  /** An item that attachments belong to, by its headers. */
  predicate IsParent(item: Item) {
    TypeOf(item) == "event" || TypeOf(item) == "transaction" || TypeOf(item) == "feedback"
  }

  /** An attachment never goes without its parent: if an event, transaction or feedback of the envelope
      is held back, so is every plain attachment of it. */
  lemma AttachmentsFollowTheirParent(items: seq<Item>, parent: Item, attachment: Item, limiter: Limiter)
    requires parent in items && IsParent(parent) && Limited(items, parent, limiter)
    requires IsPlainAttachment(attachment)
    ensures Limited(items, attachment, limiter)
  {
    var i :| 0 <= i < |items| && items[i] == parent;
    assert BlockedParent(items[i], limiter.value);
  }

  /** An item is held back exactly if there is a limiter, the item is not internal, and the category of
      its type is disabled, or it is a plain attachment in an envelope with an item of a disabled
      category that attachments belong to. */
  lemma HeldBackFor(items: seq<Item>, item: Item, limiter: Limiter)
    ensures Limited(items, item, limiter) <==>
              && limiter.Some? && TypeOf(item) != "client_report"
              && (|| LimitCategory(item).value in limiter.value
                  || (&& IsPlainAttachment(item)
                      && exists i :: 0 <= i < |items| && TypeOf(items[i]) != "client_report"
                           && LimitCategory(items[i]).value in {ErrorItem, TransactionItem,
                               FeedbackItem} * limiter.value))
  {
    hide StringHeader;
    CategoriesAgree(item);
    forall i | 0 <= i < |items| && limiter.Some?
      ensures BlockedParent(items[i], limiter.value) <==>
                TypeOf(items[i]) != "client_report"
                && LimitCategory(items[i]).value in {ErrorItem, TransactionItem, FeedbackItem} * limiter.value
    {
      CategoriesAgree(items[i]);
    }
    hide LimitCategory, DataCategory, TypeOf;
  }

  /** The type strings and their categories. */
  const CATEGORIES: map<Bytes, Category> :=
    map["session" := SessionItem, "transaction" := TransactionItem, "attachment" := AttachmentItem, "log" := LogItem,
        "feedback" := FeedbackItem, "trace_metric" := MetricItem, "replay_video" := ReplayItem]

  /** Both categories of an item follow from its type, and anything else is an error; they differ for a
      minidump, which is limited as an error and counted as an attachment, and for a client report,
      which is not limited. */
  lemma CategoriesAgree(item: Item)
    ensures DataCategory(item) == if TypeOf(item) in CATEGORIES then CATEGORIES[TypeOf(item)] else ErrorItem
    ensures LimitCategory(item) ==
              if TypeOf(item) == "client_report" then None
              else if TypeOf(item) == "attachment" && !IsPlainAttachment(item) then Some(ErrorItem)
              else Some(DataCategory(item))
  {
    hide StringHeader;
  }

  // ------------------------------------------------------------------------ conservation

  /** The items that are held back. */
  function HeldBack(all: seq<Item>, items: seq<Item>, limiter: Limiter): seq<Item> {
    if items == [] then []
    else
      var last := items[|items| - 1];
      HeldBack(all, items[..|items| - 1], limiter) + if Limited(all, last, limiter) then [last] else []
  }

  /** The cells that back-offs of items are recorded in. */
  function BackoffCells(items: seq<Item>): multiset<Cell> {
    if items == [] then multiset{}
    else BackoffCells(items[..|items| - 1]) + multiset{Cell(RatelimitBackoff, DataCategory(items[|items| - 1]))}
  }

  lemma CellsOfOneMore(held: seq<Item>, item: Item)
    ensures BackoffCells(held + [item]) == BackoffCells(held) + multiset{Cell(RatelimitBackoff, DataCategory(item))}
  {
    hide DataCategory;
    assert (held + [item])[..|held|] == held;
  }

  /** One more item on one of two sides. */
  lemma OneMore(kept: seq<Item>, held: seq<Item>, items: seq<Item>, item: Item)
    requires multiset(kept) + multiset(held) == multiset(items)
    ensures multiset(kept + [item]) + multiset(held) == multiset(items + [item])
    ensures multiset(kept) + multiset(held + [item]) == multiset(items + [item])
  {
    assert multiset(kept + [item]) == multiset(kept) + multiset{item};
    assert multiset(held + [item]) == multiset(held) + multiset{item};
    assert multiset(items + [item]) == multiset(items) + multiset{item};
  }

  /** Every item of an envelope is serialized or recorded as a back-off, and none is both. */
  lemma {:induction false} KeptOrRecorded(all: seq<Item>, items: seq<Item>, limiter: Limiter)
    ensures multiset(Kept(all, items, limiter)) + multiset(HeldBack(all, items, limiter)) == multiset(items)
    ensures Backoffs(all, items, limiter) == BackoffCells(HeldBack(all, items, limiter))
  {
    hide *;
    if items == [] {
      NothingRecorded(all, limiter);
    } else {
      var front, last := items[..|items| - 1], items[|items| - 1];
      KeptOrRecorded(all, front, limiter);
      var kept, held := Kept(all, front, limiter), HeldBack(all, front, limiter);
      NextKept(all, items, limiter);
      NextHeldBack(all, items, limiter);
      assert items == front + [last];
      OneMore(kept, held, front, last);
      CellsOfOneMore(held, last);
    }
  }

  lemma NothingRecorded(all: seq<Item>, limiter: Limiter)
    ensures Kept(all, [], limiter) == [] && HeldBack(all, [], limiter) == []
    ensures Backoffs(all, [], limiter) == multiset{} == BackoffCells([])
  {
  }

  lemma NextKept(all: seq<Item>, items: seq<Item>, limiter: Limiter)
    requires items != []
    ensures var kept, last := Kept(all, items[..|items| - 1], limiter), items[|items| - 1];
            Kept(all, items, limiter) == if Limited(all, last, limiter) then kept else kept + [last]
  {
    hide Limited;
  }

  lemma NextHeldBack(all: seq<Item>, items: seq<Item>, limiter: Limiter)
    requires items != []
    ensures var front, last := items[..|items| - 1], items[|items| - 1];
            var held, cells := HeldBack(all, front, limiter), Backoffs(all, front, limiter);
            if Limited(all, last, limiter) then
              && HeldBack(all, items, limiter) == held + [last]
              && Backoffs(all, items, limiter) == cells + multiset{Cell(RatelimitBackoff, DataCategory(last))}
            else HeldBack(all, items, limiter) == held && Backoffs(all, items, limiter) == cells
  {
    hide Limited, DataCategory;
  }

  /** `places` are the places in `items` of what is serialized, in order. */
  ghost predicate ArePlaces(all: seq<Item>, items: seq<Item>, limiter: Limiter, kept: seq<Item>, places: seq<nat>) {
    && |places| == |kept|
    && (forall k :: 0 <= k < |places| ==> places[k] < |items| && kept[k] == items[places[k]])
    && (forall j, k :: 0 <= j < k < |places| ==> places[j] < places[k])
    && (forall i: nat :: i < |items| ==> (i in places <==> !Limited(all, items[i], limiter)))
  }

  lemma OnePlaceMore(all: seq<Item>, items: seq<Item>, limiter: Limiter, kept: seq<Item>, places: seq<nat>, item: Item)
    requires ArePlaces(all, items, limiter, kept, places)
    ensures Limited(all, item, limiter) ==> ArePlaces(all, items + [item], limiter, kept, places)
    ensures !Limited(all, item, limiter) ==>
              ArePlaces(all, items + [item], limiter, kept + [item], places + [|items|])
  {
    hide Limited;
    assert forall i: nat :: i in places ==> i < |items|;
    assert forall i: nat :: i in places + [|items|] <==> i in places || i == |items|;
  }

  /** The items that are serialized are those that are not held back, in their order. */
  lemma {:induction false} KeptInOrder(all: seq<Item>, items: seq<Item>, limiter: Limiter) returns (places: seq<nat>)
    ensures ArePlaces(all, items, limiter, Kept(all, items, limiter), places)
  {
    hide Limited, Kept;
    if items == [] {
      places := [];
      NothingRecorded(all, limiter);
    } else {
      var last := |items| - 1;
      var front := KeptInOrder(all, items[..last], limiter);
      NextKept(all, items, limiter);
      OnePlaceMore(all, items[..last], limiter, Kept(all, items[..last], limiter), front, items[last]);
      assert items[..last] + [items[last]] == items;
      hide ArePlaces;
      places := if Limited(all, items[last], limiter) then front else front + [last];
    }
  }

  /** What is serialized holds an attachment only with all the items it may belong to. */
  lemma NoOrphans(e: Envelope, limiter: Limiter, attachment: Item, parent: Item)
    requires attachment in Kept(e.items, e.items, limiter) && IsPlainAttachment(attachment)
    requires parent in e.items && IsParent(parent)
    ensures parent in Kept(e.items, e.items, limiter)
  {
    hide Kept, IsParent, IsPlainAttachment, Limited;
    var places := KeptInOrder(e.items, e.items, limiter);
    var k :| 0 <= k < |places| && Kept(e.items, e.items, limiter)[k] == attachment;
    assert places[k] in places;
    var i: nat :| i < |e.items| && e.items[i] == parent;
    if Limited(e.items, parent, limiter) {
      AttachmentsFollowTheirParent(e.items, parent, attachment, limiter);
    } else {
      assert i in places;
    }
  }
}
