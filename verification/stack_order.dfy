/**
  The layer order of the canvas (`stack`, bottom first) and the three operations the
  canvas view performs on it: looking an item up by identity (`getIndex`), bringing an
  item to the front (`moveViewToFront`) and removing the item a delete was confirmed for.
  The array primitives the view uses (`remove(at:)`, `insert(_:at:)`) are modelled with
  their documented preconditions.
*/
module StackOrder {
  import opened Wrappers
  import opened StackItem

  /** `remove(at:)`: the element at `i` leaves; later elements shift down by one. */
  function RemoveAt<T>(s: seq<T>, i: nat): (r: seq<T>)
    requires i < |s|
    ensures |r| == |s| - 1
    ensures forall k :: 0 <= k < i ==> r[k] == s[k]
    ensures forall k :: i <= k < |r| ==> r[k] == s[k + 1]
    ensures multiset(r) + multiset{s[i]} == multiset(s)
  {
    assert s == s[..i] + [s[i]] + s[i + 1..];
    s[..i] + s[i + 1..]
  }

  /** `insert(_:at:)`: `x` lands at `j`; the elements from `j` on shift up by one. */
  function InsertAt<T>(s: seq<T>, x: T, j: nat): (r: seq<T>)
    requires j <= |s|
    ensures |r| == |s| + 1
    ensures r[j] == x
    ensures forall k :: 0 <= k < j ==> r[k] == s[k]
    ensures forall k :: j < k < |r| ==> r[k] == s[k - 1]
    ensures multiset(r) == multiset(s) + multiset{x}
  {
    assert s == s[..j] + s[j..];
    s[..j] + [x] + s[j..]
  }

  /** `firstIndex(where:)` on identity: the first position holding `id`, if any. */
  function FindIndex(stack: seq<StackItem>, id: string): (r: Option<nat>)
    ensures r.Some? ==> r.value < |stack| && stack[r.value].id == id
    ensures r.Some? ==> forall k :: 0 <= k < r.value ==> stack[k].id != id
    ensures r.None? <==> id !in Ids(stack)
    decreases |stack|
  {
    if |stack| == 0 then None
    else if stack[0].id == id then Some(0)
    else
      match FindIndex(stack[1..], id)
      case None => None
      case Some(i) => Some(i + 1)
  }

  /** `getIndex`: the position of the item with this identity, falling back to 0. */
  function GetIndex(stack: seq<StackItem>, id: string): (r: nat)
    ensures |stack| > 0 ==> r < |stack|
    ensures id in Ids(stack) ==> stack[r].id == id
    ensures id !in Ids(stack) ==> r == 0
  {
    FindIndex(stack, id).GetOr(0)
  }

  /** With unique identities, the position holding an identity is the one `GetIndex` finds. */
  lemma GetIndexUnique(stack: seq<StackItem>, i: nat)
    requires UniqueIds(stack) && i < |stack|
    ensures GetIndex(stack, stack[i].id) == i
  {
  }

  /** The selection highlight of one item: its identity is the selected one. */
  predicate IsSelected(selectedId: Option<string>, item: StackItem) {
    selectedId == Some(item.id)
  }

  /**
    With unique identities, at most one item is highlighted, and exactly one is when the
    selected identity belongs to the stack.
  */
  lemma AtMostOneSelected(stack: seq<StackItem>, selectedId: Option<string>)
    requires UniqueIds(stack)
    ensures forall i, j ::
              (0 <= i < |stack| && 0 <= j < |stack| && IsSelected(selectedId, stack[i])
               && IsSelected(selectedId, stack[j])) ==> i == j
    ensures (exists i :: 0 <= i < |stack| && IsSelected(selectedId, stack[i]))
              <==> selectedId.Some? && selectedId.value in Ids(stack)
  {
  }

  /**
    `moveViewToFront`: the item is removed from its position and inserted at the last
    index of the original stack, which after the removal is the end.
  */
  function MoveToFront(stack: seq<StackItem>, id: string): (r: seq<StackItem>)
    requires |stack| > 0
  {
    var i := GetIndex(stack, id);
    InsertAt(RemoveAt(stack, i), stack[i], |stack| - 1)
  }

  /**
    Bringing to front keeps the same items (as a multiset), puts the item that was found
    on top, and leaves every other item in its previous relative order.
  */
  lemma MoveToFrontPlaces(stack: seq<StackItem>, id: string)
    requires |stack| > 0
    ensures var r := MoveToFront(stack, id);
            var i := GetIndex(stack, id);
            && |r| == |stack|
            && multiset(r) == multiset(stack)
            && r[|r| - 1] == stack[i]
            && (forall k :: 0 <= k < i ==> r[k] == stack[k])
            && (forall k :: i <= k < |r| - 1 ==> r[k] == stack[k + 1])
  {
  }

  /** The item with this identity ends on top; an absent identity brings the bottom item up. */
  lemma MoveToFrontTop(stack: seq<StackItem>, id: string)
    requires |stack| > 0
    ensures id in Ids(stack) ==> MoveToFront(stack, id)[|stack| - 1].id == id
    ensures id !in Ids(stack) ==> MoveToFront(stack, id) == stack[1..] + [stack[0]]
  {
    MoveToFrontPlaces(stack, id);
    if id !in Ids(stack) {
      var r := MoveToFront(stack, id);
      assert forall k :: 0 <= k < |stack| - 1 ==> r[k] == (stack[1..] + [stack[0]])[k];
    }
  }

  /** Bringing the top item to the front changes nothing. */
  lemma MoveToFrontOfTop(stack: seq<StackItem>, id: string)
    requires |stack| > 0 && GetIndex(stack, id) == |stack| - 1
    ensures MoveToFront(stack, id) == stack
  {
    MoveToFrontPlaces(stack, id);
  }

  /** Stacks holding the same items hold the same identities. */
  lemma SameItemsSameIds(a: seq<StackItem>, b: seq<StackItem>)
    requires multiset(a) == multiset(b)
    ensures Ids(a) == Ids(b)
  {
    forall id | id in Ids(a)
      ensures id in Ids(b)
    {
      var j :| 0 <= j < |a| && a[j].id == id;
      assert a[j] in multiset(b);
      var k :| 0 <= k < |b| && b[k] == a[j];
    }
    forall id | id in Ids(b)
      ensures id in Ids(a)
    {
      var j :| 0 <= j < |b| && b[j].id == id;
      assert b[j] in multiset(a);
      var k :| 0 <= k < |a| && a[k] == b[j];
    }
  }

  /** The set of identities, and their uniqueness, survive a reorder. */
  lemma MoveToFrontKeepsIds(stack: seq<StackItem>, id: string)
    requires |stack| > 0
    ensures Ids(MoveToFront(stack, id)) == Ids(stack)
    ensures UniqueIds(stack) ==> UniqueIds(MoveToFront(stack, id))
  {
    var r := MoveToFront(stack, id);
    var i := GetIndex(stack, id);
    MoveToFrontPlaces(stack, id);
    SameItemsSameIds(r, stack);
    if UniqueIds(stack) {
      forall a, b | 0 <= a < b < |r|
        ensures r[a].id != r[b].id
      {
        // Position `a` of the result came from `sa` of the stack, `b` from `sb`.
        var sa := if a < i then a else a + 1;
        var sb := if b == |r| - 1 then i else if b < i then b else b + 1;
        assert r[a] == stack[sa] && r[b] == stack[sb] && sa != sb;
      }
    }
  }

  /** With unique identities, bringing the same item to the front twice is the same as once. */
  lemma MoveToFrontIdempotent(stack: seq<StackItem>, id: string)
    requires |stack| > 0 && UniqueIds(stack) && id in Ids(stack)
    ensures MoveToFront(MoveToFront(stack, id), id) == MoveToFront(stack, id)
  {
    var r := MoveToFront(stack, id);
    MoveToFrontTop(stack, id);
    MoveToFrontKeepsIds(stack, id);
    GetIndexUnique(r, |r| - 1);
    MoveToFrontOfTop(r, id);
  }

  /**
    The delete confirmation: when an item was recorded for deletion, the element at its
    `GetIndex` position is removed; otherwise the stack is unchanged. Removing from an
    empty stack is a runtime trap, so a recorded item needs a non-empty stack.
  */
  function ConfirmDelete(stack: seq<StackItem>, current: Option<StackItem>): (r: seq<StackItem>)
    requires current.Some? ==> |stack| > 0
  {
    match current
    case None => stack
    case Some(item) => RemoveAt(stack, GetIndex(stack, item.id))
  }

  /**
    A confirmed delete removes one element, the one at the item's `GetIndex` position,
    and keeps the others in order.
  */
  lemma ConfirmDeletePlaces(stack: seq<StackItem>, item: StackItem)
    requires |stack| > 0
    ensures var r := ConfirmDelete(stack, Some(item));
            var i := GetIndex(stack, item.id);
            && |r| == |stack| - 1
            && multiset(r) + multiset{stack[i]} == multiset(stack)
            && (forall k :: 0 <= k < i ==> r[k] == stack[k])
            && (forall k :: i <= k < |r| ==> r[k] == stack[k + 1])
  {
  }

  /**
    A confirmed delete never adds an identity and keeps identities unique, whether or not
    the recorded item is still in the stack.
  */
  lemma ConfirmDeleteKeepsIds(stack: seq<StackItem>, item: StackItem)
    requires |stack| > 0
    ensures Ids(ConfirmDelete(stack, Some(item))) <= Ids(stack)
    ensures UniqueIds(stack) ==> UniqueIds(ConfirmDelete(stack, Some(item)))
  {
    var r := ConfirmDelete(stack, Some(item));
    var i := GetIndex(stack, item.id);
    ConfirmDeletePlaces(stack, item);
    forall k | 0 <= k < |r|
      ensures r[k].id in Ids(stack)
    {
      var j := if k < i then k else k + 1;
      assert r[k] == stack[j];
    }
    if UniqueIds(stack) {
      forall a, b | 0 <= a < b < |r|
        ensures r[a].id != r[b].id
      {
        var sa := if a < i then a else a + 1;
        var sb := if b < i then b else b + 1;
        assert r[a] == stack[sa] && r[b] == stack[sb] && sa < sb;
      }
    }
  }

  /**
    Deleting an item that is in a stack with unique identities removes exactly that item:
    its identity is gone, every other identity stays, and identities stay unique.
  */
  lemma ConfirmDeleteRemovesItem(stack: seq<StackItem>, item: StackItem)
    requires UniqueIds(stack) && item.id in Ids(stack)
    ensures Ids(ConfirmDelete(stack, Some(item))) == Ids(stack) - {item.id}
    ensures UniqueIds(ConfirmDelete(stack, Some(item)))
  {
    var r := ConfirmDelete(stack, Some(item));
    var i := GetIndex(stack, item.id);
    ConfirmDeletePlaces(stack, item);
    forall j | 0 <= j < |stack| && j != i
      ensures stack[j].id in Ids(r)
    {
      var k := if j < i then j else j - 1;
      assert r[k] == stack[j];
    }
    forall k | 0 <= k < |r|
      ensures r[k].id in Ids(stack) && r[k].id != item.id
    {
      var j := if k < i then k else k + 1;
      assert r[k] == stack[j] && j != i;
    }
    forall a, b | 0 <= a < b < |r|
      ensures r[a].id != r[b].id
    {
      var sa := if a < i then a else a + 1;
      var sb := if b < i then b else b + 1;
      assert r[a] == stack[sa] && r[b] == stack[sb] && sa < sb;
    }
  }

  /** Deleting an item no longer in the stack removes the bottom item instead. */
  lemma ConfirmDeleteAbsent(stack: seq<StackItem>, item: StackItem)
    requires |stack| > 0 && item.id !in Ids(stack)
    ensures ConfirmDelete(stack, Some(item)) == stack[1..]
  {
  }
}
