/**
 * The "my list" context: a list of saved items, appended to, filtered by id,
 * and queried by id. When a user is signed in, every change is also written
 * to local storage under `myList_<user id>`.
 */
module MyList {
  import opened Wrappers
  import Lists

  /** A saved item; only its id is inspected (strict equality, an absent id equal to another absent id). */
  datatype ListItem = ListItem(id: Option<string>, title: string)

  /** addToMyList: the item is appended, even when an item with its id is already there. */
  function Add(list: seq<ListItem>, item: ListItem): (r: seq<ListItem>)
    ensures |r| == |list| + 1
    ensures r[..|list|] == list && r[|list|] == item
  {
    list + [item]
  }

  /** removeFromMyList: every item with that id is dropped, the rest kept in order. */
  function Remove(list: seq<ListItem>, itemId: Option<string>): (r: seq<ListItem>)
    ensures forall x :: x in r <==> x in list && x.id != itemId
    ensures Lists.SubsequenceOf(r, list)
    ensures Lists.FilteredBy(r, list, (x: ListItem) => x.id != itemId)
  {
    var keep := (x: ListItem) => x.id != itemId;
    Lists.FilterIsSubsequence(list, keep);
    Lists.FilterExact(list, keep);
    forall x | x in list && keep(x) ensures x in Lists.Filter(list, keep) {
      Lists.FilterKeeps(list, keep, x);
    }
    Lists.Filter(list, keep)
  }

  /** isInMyList: some item has that id. */
  predicate IsIn(list: seq<ListItem>, itemId: Option<string>) {
    exists x :: x in list && x.id == itemId
  }

  /** After adding an item, its id is in the list. */
  lemma AddedIsIn(list: seq<ListItem>, item: ListItem)
    ensures IsIn(Add(list, item), item.id)
  {
    assert Add(list, item)[|list|] == item;
  }

  /** After removing an id, it is no longer in the list, and every other id keeps its membership. */
  lemma RemovedIsNotIn(list: seq<ListItem>, itemId: Option<string>, other: Option<string>)
    ensures !IsIn(Remove(list, itemId), itemId)
    ensures other != itemId ==> (IsIn(Remove(list, itemId), other) <==> IsIn(list, other))
  {
    if other != itemId && IsIn(list, other) {
      var x :| x in list && x.id == other;
      assert x in Remove(list, itemId);
    }
  }

  /** Removing an id that is absent leaves the list as it was. */
  lemma RemoveAbsent(list: seq<ListItem>, itemId: Option<string>)
    requires !IsIn(list, itemId)
    ensures Remove(list, itemId) == list
  {
    Lists.FilterAllPass(list, (x: ListItem) => x.id != itemId);
  }

  /** Adding an item and then removing its id is the same as removing the id alone. */
  lemma {:induction false} AddThenRemove(list: seq<ListItem>, item: ListItem)
    ensures Remove(Add(list, item), item.id) == Remove(list, item.id)
  {
    Lists.FilterAppend(list, item, (x: ListItem) => x.id != item.id);
  }

  /** The local-storage key of a signed-in user's list; nothing is stored when nobody is signed in. */
  function StorageKey(userId: Option<string>): (r: Option<string>)
    ensures userId.None? <==> r.None?
    ensures r.Some? ==> |r.value| == |"myList_"| + |userId.value| && r.value[..7] == "myList_"
  {
    if userId.Some? then Some("myList_" + userId.value) else None
  }
}
