/** The pre-session readiness checklist: its items, the search for the next
    item still to confirm, and the whole-list edits the timer performs. */
module Checklist {
  import opened Wrappers

  /** One readiness item. `modalMessage` is the body of the prompt that asks
      the teacher to confirm it. */
  datatype Item = Item(id: string, text: string, completed: bool, modalMessage: string)

  const MessagePrefix: string := "Please confirm you have completed \"**"
  const MessageSuffix: string := "**\"."

  /** The confirmation message generated for an item that has none:
      `Please confirm you have completed "**<text>**".` It is never empty and
      quotes the item's text right after the fixed prefix. */
  function DefaultMessage(text: string): (m: string)
    ensures m != ""
    ensures |m| == |MessagePrefix| + |text| + |MessageSuffix|
    ensures m[..|MessagePrefix|] == MessagePrefix
    ensures m[|MessagePrefix|..|MessagePrefix| + |text|] == text
    ensures m[|MessagePrefix| + |text|..] == MessageSuffix
  {
    MessagePrefix + text + MessageSuffix
  }

  /** `areAllChecklistItemsCompleted` (`every`, so true of the empty list).
      It holds exactly when the walk's search from the first index finds
      nothing to prompt for. */
  predicate AllCompleted(items: seq<Item>)
    ensures items == [] ==> AllCompleted(items)
    ensures AllCompleted(items) <==> FirstIncompleteFrom(items, 0).None?
  {
    forall i :: 0 <= i < |items| ==> items[i].completed
  }

  predicate CompletedBetween(items: seq<Item>, lo: int, hi: int) {
    forall k :: lo <= k < hi && 0 <= k < |items| ==> items[k].completed
  }

  predicate HasId(items: seq<Item>, id: string) {
    exists i :: 0 <= i < |items| && items[i].id == id
  }

  predicate UniqueIds(items: seq<Item>) {
    forall i, j :: 0 <= i < j < |items| ==> items[i].id != items[j].id
  }

  predicate MessagesPresent(items: seq<Item>) {
    forall i :: 0 <= i < |items| ==> items[i].modalMessage != ""
  }

  /** The index `findIndex` returns for "index >= start and not completed",
      as an option: the first incomplete item at or after `start`, or None
      when every item from `start` on is completed. */
  function FirstIncompleteFrom(items: seq<Item>, start: nat): (r: Option<nat>)
    ensures r.Some? ==>
      && start <= r.value < |items|
      && !items[r.value].completed
      && CompletedBetween(items, start, r.value)
    ensures r.None? <==> CompletedBetween(items, start, |items|)
    decreases |items| - start
  {
    if start >= |items| then None
    else if !items[start].completed then Some(start)
    else FirstIncompleteFrom(items, start + 1)
  }

  /** `findIndex` as the page calls it: a scan of the whole list for the
      first index that is at least `start` and holds an incomplete item,
      giving -1 when there is none. */
  method FindIndexIncomplete(items: seq<Item>, start: nat) returns (idx: int)
    ensures idx == -1 <==> CompletedBetween(items, start, |items|)
    ensures idx != -1 ==>
      && start <= idx < |items|
      && !items[idx].completed
      && CompletedBetween(items, start, idx)
    ensures idx == -1 <==> FirstIncompleteFrom(items, start).None?
    ensures idx != -1 ==> FirstIncompleteFrom(items, start) == Some(idx)
  {
    var i := 0;
    while i < |items|
      invariant 0 <= i <= |items|
      invariant CompletedBetween(items, start, i)
    {
      if i >= start && !items[i].completed {
        idx := i;
        FirstIncompleteIsUnique(items, start, i);
        return;
      }
      i := i + 1;
    }
    idx := -1;
  }

  lemma FirstIncompleteIsUnique(items: seq<Item>, start: nat, i: nat)
    requires start <= i < |items| && !items[i].completed && CompletedBetween(items, start, i)
    ensures FirstIncompleteFrom(items, start) == Some(i)
  {
  }

  /** Sets `completed` on the item at `index` (the walk's confirmation). */
  function MarkCompleted(items: seq<Item>, index: nat): (r: seq<Item>)
    ensures |r| == |items|
    ensures index < |items| ==> r[index] == items[index].(completed := true)
    ensures forall k :: 0 <= k < |items| && k != index ==> r[k] == items[k]
  {
    if index < |items| then items[index := items[index].(completed := true)] else items
  }

  /** `forEach(item => item.completed = b)`. */
  function SetAllCompleted(items: seq<Item>, b: bool): (r: seq<Item>)
    ensures |r| == |items|
    ensures forall k :: 0 <= k < |items| ==> r[k] == items[k].(completed := b)
  {
    seq(|items|, k requires 0 <= k < |items| => items[k].(completed := b))
  }

  /** The item `addChecklistItem` creates from trimmed, non-empty text. */
  function NewItem(id: string, text: string): (item: Item)
    ensures item.id == id && item.text == text && !item.completed
    ensures item.modalMessage == DefaultMessage(text)
  {
    Item(id, text, false, DefaultMessage(text))
  }

  /** `filter(item => item.id !== id)`. */
  function RemoveId(items: seq<Item>, id: string): (r: seq<Item>)
    ensures |r| <= |items|
    ensures forall x :: x in r <==> x in items && x.id != id
  {
    if items == [] then []
    else (if items[0].id == id then [] else [items[0]]) + RemoveId(items[1..], id)
  }

  /** Filtering distributes over concatenation: together with its effect on a
      single item this pins `RemoveId` down as the order-preserving filter. */
  lemma {:induction false} RemoveIdAppend(a: seq<Item>, b: seq<Item>, id: string)
    ensures RemoveId(a + b, id) == RemoveId(a, id) + RemoveId(b, id)
    decreases |a|
  {
    if a != [] {
      assert (a + b)[1..] == a[1..] + b;
      RemoveIdAppend(a[1..], b, id);
    } else {
      assert a + b == b;
    }
  }

  lemma RemoveIdSingle(x: Item, id: string)
    ensures RemoveId([x], id) == if x.id == id then [] else [x]
  {
    assert [x][1..] == [];
  }

  /** Removing an id that no item carries changes nothing. */
  lemma {:induction false} RemoveAbsentId(items: seq<Item>, id: string)
    requires !HasId(items, id)
    ensures RemoveId(items, id) == items
    decreases |items|
  {
    if items != [] {
      assert !HasId(items[1..], id) by {
        forall i | 0 <= i < |items[1..]| ensures items[1..][i].id != id {
          assert items[1..][i] == items[i + 1];
        }
      }
      RemoveAbsentId(items[1..], id);
      assert items == [items[0]] + items[1..];
    }
  }

  /** Deleting an item that was just appended under a fresh id restores the
      list as it was before the addition. */
  lemma AddThenRemove(items: seq<Item>, id: string, text: string)
    requires !HasId(items, id)
    ensures RemoveId(items + [NewItem(id, text)], id) == items
  {
    RemoveIdAppend(items, [NewItem(id, text)], id);
    RemoveIdSingle(NewItem(id, text), id);
    RemoveAbsentId(items, id);
  }

  lemma UniqueTail(items: seq<Item>)
    requires items != [] && UniqueIds(items)
    ensures UniqueIds(items[1..])
    ensures !HasId(items[1..], items[0].id)
  {
    forall i, j | 0 <= i < j < |items[1..]| ensures items[1..][i].id != items[1..][j].id {
      assert items[1..][i] == items[i + 1] && items[1..][j] == items[j + 1];
    }
    forall k | 0 <= k < |items[1..]| ensures items[1..][k].id != items[0].id {
      assert items[1..][k] == items[k + 1];
    }
  }

  lemma UniqueCons(x: Item, rest: seq<Item>)
    requires UniqueIds(rest) && !HasId(rest, x.id)
    ensures UniqueIds([x] + rest)
  {
    var r := [x] + rest;
    forall i, j | 0 <= i < j < |r| ensures r[i].id != r[j].id {
      assert r[j] == rest[j - 1];
      if i > 0 {
        assert r[i] == rest[i - 1];
      }
    }
  }

  /** A deletion keeps only items that were there: ids absent before stay
      absent. */
  lemma RemoveIdNoNewIds(items: seq<Item>, id: string, other: string)
    requires !HasId(items, other)
    ensures !HasId(RemoveId(items, id), other)
  {
    var r := RemoveId(items, id);
    forall i | 0 <= i < |r| ensures r[i].id != other {
      assert r[i] in r;
    }
  }

  /** No item left after a deletion carries the deleted id, and the filter
      keeps the ids distinct when they were. */
  lemma {:induction false} RemoveIdKeepsUnique(items: seq<Item>, id: string)
    requires UniqueIds(items)
    ensures UniqueIds(RemoveId(items, id))
    ensures !HasId(RemoveId(items, id), id)
    decreases |items|
  {
    if items != [] {
      var rest := RemoveId(items[1..], id);
      UniqueTail(items);
      RemoveIdKeepsUnique(items[1..], id);
      RemoveIdNoNewIds(items[1..], id, items[0].id);
      if items[0].id != id {
        UniqueCons(items[0], rest);
        assert !HasId([items[0]] + rest, id) by {
          forall k | 0 <= k < |[items[0]] + rest| ensures ([items[0]] + rest)[k].id != id {
            if k > 0 {
              assert ([items[0]] + rest)[k] == rest[k - 1];
            }
          }
        }
      }
    }
  }

  /** Every item kept by a deletion still has a message when all had one. */
  lemma RemoveIdKeepsMessages(items: seq<Item>, id: string)
    requires MessagesPresent(items)
    ensures MessagesPresent(RemoveId(items, id))
  {
    var r := RemoveId(items, id);
    forall i | 0 <= i < |r| ensures r[i].modalMessage != "" {
      assert r[i] in r;
      var k :| 0 <= k < |items| && items[k] == r[i];
    }
  }
}
