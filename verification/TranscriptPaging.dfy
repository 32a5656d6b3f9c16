/** Pages of a transcript, widened so that no delegated item is shown without its parent call. */
module TranscriptPaging {
  import opened Wrappers

  datatype Item = Item(kind: string, invocationID: string, toolCallID: string, delegationID: string)

  datatype DelegationKey = DelegationKey(invocationID: string, toolCallID: string)

  datatype Page = Page(items: seq<Item>, nextCursor: Option<int>, hasMore: bool)

  /** transcriptItemDelegationKey. */
  function KeyOf(item: Item): Option<DelegationKey> {
    var toolCallID :=
      if item.kind == "subagent_call" || item.kind == "subagent_result" then item.toolCallID else item.delegationID;
    if toolCallID == "" then None else Some(DelegationKey(item.invocationID, toolCallID))
  }

  predicate IsParent(item: Item, key: DelegationKey) {
    item.kind == "subagent_call" && item.toolCallID != "" && key == DelegationKey(item.invocationID, item.toolCallID)
  }

  /** The last call before `end` with this key. */
  function ParentIndex(items: seq<Item>, end: nat, key: DelegationKey): (parent: Option<nat>)
    requires end <= |items|
    ensures parent.Some? ==> parent.value < end && IsParent(items[parent.value], key)
    ensures forall i :: 0 <= i < end && IsParent(items[i], key) ==> parent.Some? && i <= parent.value
  {
    if end == 0 then None
    else if IsParent(items[end - 1], key) then Some(end - 1)
    else ParentIndex(items, end - 1, key)
  }

  /** The parent a shown item asks for, if it has one before the page end. */
  function WantedParent(items: seq<Item>, end: nat, item: Item): Option<nat>
    requires end <= |items|
  {
    if KeyOf(item).Some? then ParentIndex(items, end, KeyOf(item).value) else None
  }

  /** A page from `start` shows the parent of every delegated item it shows. */
  predicate Closed(items: seq<Item>, start: nat, end: nat)
    requires end <= |items|
  {
    forall i :: start <= i < end ==>
      var parent := WantedParent(items, end, items[i]);
      parent.Some? ==> start <= parent.value
  }

  ghost predicate GreatestClosed(items: seq<Item>, start: nat, end: nat, result: nat)
    requires end <= |items|
  {
    && result <= start
    && Closed(items, result, end)
    && forall other :: 0 <= other <= start && Closed(items, other, end) ==> other <= result
  }

  /** The item belongs to the delegation that the parent call opens: a call and its result carry the id as their own. */
  predicate BelongsTo(item: Item, parent: Item) {
    && parent.kind == "subagent_call" && parent.toolCallID != "" && parent.invocationID == item.invocationID
    && parent.toolCallID ==
         if item.kind in {"subagent_call", "subagent_result"} then item.toolCallID else item.delegationID
  }

  predicate IsLastParent(items: seq<Item>, end: nat, i: int, j: int)
    requires end <= |items| && 0 <= i < |items|
  {
    0 <= j < end && BelongsTo(items[i], items[j]) && forall k :: j < k < end ==> !BelongsTo(items[i], items[k])
  }

  /** No item shown belongs to a call whose last mention before the page's end is not shown. */
  predicate ParentsShown(items: seq<Item>, start: nat, end: nat)
    requires end <= |items|
  {
    forall i, j :: start <= i < end && 0 <= j < end && IsLastParent(items, end, i, j) ==> start <= j
  }

  lemma ClosedMeans(items: seq<Item>, start: nat, end: nat)
    requires end <= |items|
    ensures Closed(items, start, end) <==> ParentsShown(items, start, end)
  {
    forall i | start <= i < end
      ensures forall j :: IsLastParent(items, end, i, j) <==> j >= 0 && WantedParent(items, end, items[i]) == Some(j)
    {
      WantedIsLast(items, end, i);
    }
  }

  lemma WantedIsLast(items: seq<Item>, end: nat, i: nat)
    requires end <= |items| && i < |items|
    ensures forall j :: IsLastParent(items, end, i, j) <==> j >= 0 && WantedParent(items, end, items[i]) == Some(j)
  {
    var item := items[i];
    forall j | 0 <= j < |items|
      ensures BelongsTo(item, items[j]) <==> KeyOf(item).Some? && IsParent(items[j], KeyOf(item).value)
    {
    }
  }

  ghost predicate Indexes(parentIndices: map<DelegationKey, nat>, items: seq<Item>, end: nat)
    requires end <= |items|
  {
    && (forall key :: key in parentIndices ==> ParentIndex(items, end, key) == Some(parentIndices[key]))
    && (forall key :: key !in parentIndices ==> ParentIndex(items, end, key) == None)
  }

  method IndexParents(items: seq<Item>, end: nat) returns (parentIndices: map<DelegationKey, nat>)
    requires end <= |items|
    ensures Indexes(parentIndices, items, end)
  {
    parentIndices := map[];
    for index := 0 to end
      invariant Indexes(parentIndices, items, index)
    {
      var item := items[index];
      if item.kind == "subagent_call" && item.toolCallID != "" {
        parentIndices := parentIndices[DelegationKey(item.invocationID, item.toolCallID) := index];
      }
    }
  }

  /** One pass over the page: the earliest parent asked for, or the page's own start. */
  method EarliestWanted(items: seq<Item>, parentIndices: map<DelegationKey, nat>, start: nat, end: nat)
    returns (adjusted: nat)
    requires start <= end <= |items| && Indexes(parentIndices, items, end)
    ensures adjusted <= start && (adjusted == start <==> Closed(items, start, end))
    ensures forall other :: 0 <= other <= start && Closed(items, other, end) ==> other <= adjusted
  {
    adjusted := start;
    ghost var asking := start;
    for i := start to end
      invariant adjusted <= start
      invariant forall j :: start <= j < i && WantedParent(items, end, items[j]).Some? ==>
        adjusted <= WantedParent(items, end, items[j]).value
      invariant adjusted < start ==>
        start <= asking < i && WantedParent(items, end, items[asking]) == Some(adjusted)
    {
      var key := KeyOf(items[i]);
      if key.Some? && key.value in parentIndices {
        assert WantedParent(items, end, items[i]) == Some(parentIndices[key.value]);
        if parentIndices[key.value] < adjusted {
          adjusted, asking := parentIndices[key.value], i;
        }
      }
    }
  }

  /** expandTranscriptPageForDelegations: lower the start until nothing asks for an earlier one. */
  method Expand(items: seq<Item>, start: nat, end: nat) returns (result: nat)
    requires start <= end <= |items|
    ensures GreatestClosed(items, start, end, result)
  {
    var parentIndices := IndexParents(items, end);
    result := start;
    while true
      invariant result <= start
      invariant forall other :: 0 <= other <= start && Closed(items, other, end) ==> other <= result
      decreases result
    {
      var adjusted := EarliestWanted(items, parentIndices, result, end);
      if adjusted == result {
        return;
      }
      result := adjusted;
    }
  }

  /** Where a page ends: the cursor, clamped into the transcript. */
  function PageEnd(items: seq<Item>, before: Option<int>): (end: nat)
    ensures end <= |items|
  {
    if before.Some? then Min(Max(before.value, 0), |items|) else |items|
  }

  /** Where a page starts, as its cursor tells. */
  function PageStart(page: Page): int {
    if page.nextCursor.Some? then page.nextCursor.value else 0
  }

  /** paginateTranscript. */
  method Paginate(items: seq<Item>, before: Option<int>, limit: nat) returns (page: Page)
    requires limit >= 1
    ensures 0 <= PageStart(page) <= PageEnd(items, before)
    ensures GreatestClosed(items, Max(0, PageEnd(items, before) - limit), PageEnd(items, before), PageStart(page))
    ensures ParentsShown(items, PageStart(page), PageEnd(items, before))
    ensures forall other :: PageStart(page) < other <= PageEnd(items, before) - limit ==>
      !ParentsShown(items, other, PageEnd(items, before))
    ensures page.items == items[PageStart(page)..PageEnd(items, before)]
    ensures page.hasMore == page.nextCursor.Some? == (PageStart(page) > 0)
    ensures PageEnd(items, before) > 0 ==> page.items != []
  {
    var stop := |items|;
    if before.Some? {
      stop := Min(Max(before.value, 0), stop);
    }
    var first := Max(0, stop - limit);
    first := Expand(items, first, stop);
    forall other: nat | other <= stop
      ensures Closed(items, other, stop) <==> ParentsShown(items, other, stop)
    {
      ClosedMeans(items, other, stop);
    }
    page := Page(items[first..stop], if first > 0 then Some(first) else None, first > 0);
  }

  /** A closed page contains the parent, if it lies before the page's end, of every delegated item it shows. */
  lemma PageShowsParents(items: seq<Item>, start: nat, end: nat, shown: nat)
    requires start <= shown < end <= |items| && Closed(items, start, end)
    ensures var parent := WantedParent(items, end, items[shown]);
      parent.Some? ==>
        && IsParent(items[parent.value], KeyOf(items[shown]).value)
        && items[parent.value] in items[start..end]
  {
    var parent := WantedParent(items, end, items[shown]);
    assert parent.Some? ==> items[parent.value] == items[start..end][parent.value - start];
  }

  function Concat(pages: seq<seq<Item>>): seq<Item> {
    if pages == [] then [] else pages[0] + Concat(pages[1..])
  }

  lemma OneMorePage(items: seq<Item>, start: nat, end: nat, pages: seq<seq<Item>>)
    requires start <= end <= |items| && Concat(pages) == items[end..]
    ensures Concat([items[start..end]] + pages) == items[start..]
  {
    assert ([items[start..end]] + pages)[1..] == pages;
    assert items[start..end] + items[end..] == items[start..];
  }

  /** Following NextCursor from the newest page ends, and the pages, oldest first, are the transcript. */
  method FollowCursors(items: seq<Item>, limit: nat) returns (pages: seq<seq<Item>>)
    requires limit >= 1
    ensures Concat(pages) == items
    ensures |pages| <= |items| + 1
    ensures forall i :: 0 < i < |pages| ==> |pages[i]| >= limit
  {
    var page := Paginate(items, None, limit);
    pages := [page.items];
    var cursor := page.nextCursor;
    assert Concat(pages) == pages[0] + Concat([]);
    while cursor.Some?
      invariant cursor.Some? ==> 0 < cursor.value < |items|
      invariant Concat(pages) == items[if cursor.Some? then cursor.value else 0..]
      invariant 0 < |pages| <= |items| + 1 - (if cursor.Some? then cursor.value else 0)
      invariant forall i :: 0 < i < |pages| ==> |pages[i]| >= limit
      invariant cursor.Some? ==> |pages[0]| >= limit
      decreases if cursor.Some? then cursor.value else 0
    {
      var next := Paginate(items, cursor, limit);
      ghost var start, end := PageStart(next), PageEnd(items, cursor);
      OneMorePage(items, start, end, pages);
      pages := [next.items] + pages;
      cursor := next.nextCursor;
    }
  }
}
