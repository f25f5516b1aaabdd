/**
 * src/components/SearchBar.jsx: the global search overlay. Typing filters
 * the items (at most 20, accent- and case-insensitively); the arrow keys
 * move a clamped selection and Enter picks the selected result.
 */
module SearchBar {
  import opened Wrappers
  import Text
  import opened Lists

  const MaxResults: nat := 20

  datatype SearchItem = SearchItem(name: Option<string>, title: Option<string>, description: Option<string>, genre: Option<string>)

  /** The item's name (or title), description or genre contains the normalised query. */
  predicate Matches(item: SearchItem, normalizedQuery: string) {
    || Text.Contains(Text.Normalize(OrElse(item.name, OrElse(item.title, ""))), normalizedQuery)
    || Text.Contains(Text.Normalize(OrElse(item.description, "")), normalizedQuery)
    || Text.Contains(Text.Normalize(OrElse(item.genre, "")), normalizedQuery)
  }

  /** performSearch: nothing for a blank query, else the first matching items. */
  function SearchResults(items: seq<SearchItem>, query: string): (r: seq<SearchItem>)
    ensures Text.AllSpace(query) ==> r == []
    ensures |r| <= MaxResults
    ensures SubsequenceOf(r, items)
    ensures !Text.AllSpace(query) ==> forall x :: x in r ==> Matches(x, Text.Normalize(query))
    ensures !Text.AllSpace(query) && |r| < MaxResults ==>
      forall x :: x in items && Matches(x, Text.Normalize(query)) ==> x in r
    ensures !Text.AllSpace(query) ==> FirstPassing(r, items, (x: SearchItem) => Matches(x, Text.Normalize(query)), MaxResults)
  {
    Text.BlankIffAllSpace(query);
    if Text.Trim(query) == "" then []
    else
      var q := Text.Normalize(query);
      var keep := (x: SearchItem) => Matches(x, q);
      var all := Filter(items, keep);
      FilterIsSubsequence(items, keep);
      PrefixIsSubsequence(all, |Take(all, MaxResults)|);
      assert Take(all, MaxResults) == all[..|Take(all, MaxResults)|];
      SubsequenceTransitive(Take(all, MaxResults), all, items);
      assert forall x :: x in items && keep(x) ==> x in all by {
        forall x | x in items && keep(x) ensures x in all {
          FilterKeeps(items, keep, x);
        }
      }
      assert forall x :: x in Take(all, MaxResults) ==> x in all;
      TakeFilterFirstPassing(items, keep, MaxResults);
      Take(all, MaxResults)
  }

  /** The search overlay's state. */
  class SearchBarState {
    const items: seq<SearchItem>
    var isOpen: bool
    var query: string
    var results: seq<SearchItem>
    var selectedIndex: int

    constructor (items: seq<SearchItem>)
      ensures this.items == items && !isOpen && query == "" && results == [] && selectedIndex == 0
    {
      this.items := items;
      isOpen := false;
      query := "";
      results := [];
      selectedIndex := 0;
    }

    /** The global key listener: '/' or '?' opens the closed bar, and so does Ctrl+S on a TV. */
    method GlobalKey(key: string, ctrl: bool, isTV: bool)
      modifies this`isOpen
      ensures isOpen == (old(isOpen) || key == "/" || key == "?" || (isTV && key == "s" && ctrl))
    {
      if (key == "/" || key == "?") && !isOpen {
        isOpen := true;
      }
      if isTV && key == "s" && ctrl && !isOpen {
        isOpen := true;
      }
    }

    /** handleSearchInput: every new query recomputes the results and resets the selection. */
    method SearchInput(q: string)
      modifies this`query, this`results, this`selectedIndex
      ensures query == q && results == SearchResults(items, q) && selectedIndex == 0
    {
      query := q;
      results := SearchResults(items, q);
      selectedIndex := 0;
    }

    /** handleKeyDown: returns the item handed to onSelectItem, if any. */
    method HandleKey(key: string) returns (selected: Option<SearchItem>)
      modifies this
      ensures !old(isOpen) ==> selected == None && !isOpen && selectedIndex == old(selectedIndex)
      ensures old(isOpen) && key == "ArrowUp" ==> selectedIndex == (if old(selectedIndex) - 1 > 0 then old(selectedIndex) - 1 else 0)
      ensures old(isOpen) && key == "ArrowDown" ==>
        selectedIndex == (if |old(results)| - 1 < old(selectedIndex) + 1 then |old(results)| - 1 else old(selectedIndex) + 1)
      ensures selected.Some? <==> old(isOpen) && key == "Enter" && 0 <= old(selectedIndex) < |old(results)|
      ensures selected.Some? ==> selected.value == old(results)[old(selectedIndex)] && !isOpen && query == "" && results == []
      ensures old(isOpen) && key == "Escape" ==> !isOpen
      ensures key != "Enter" || selected.None? ==> query == old(query) && results == old(results)
      ensures key != "ArrowUp" && key != "ArrowDown" ==> selectedIndex == old(selectedIndex)
      ensures key != "Escape" && selected.None? ==> isOpen == old(isOpen)
    {
      selected := None;
      if !isOpen {
        return;
      }
      if key == "ArrowUp" {
        selectedIndex := if selectedIndex - 1 > 0 then selectedIndex - 1 else 0;
      } else if key == "ArrowDown" {
        selectedIndex := if |results| - 1 < selectedIndex + 1 then |results| - 1 else selectedIndex + 1;
      } else if key == "Enter" {
        if 0 <= selectedIndex < |results| {
          selected := Some(results[selectedIndex]);
          SelectItem();
        }
      } else if key == "Escape" {
        isOpen := false;
      }
    }

    /** handleSelectItem: closes the bar and clears the query and the results. */
    method SelectItem()
      modifies this`isOpen, this`query, this`results
      ensures !isOpen && query == "" && results == []
    {
      isOpen := false;
      query := "";
      results := [];
    }
  }

  /** With no results, ArrowDown leaves the selection at -1 and Enter then selects nothing. */
  method DownWithoutResults(bar: SearchBarState)
    requires bar.isOpen && bar.results == [] && bar.selectedIndex == 0
    modifies bar
    ensures bar.selectedIndex == -1 && bar.isOpen
  {
    var s := bar.HandleKey("ArrowDown");
    s := bar.HandleKey("Enter");
    assert s == None;
  }
}
