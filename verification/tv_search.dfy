/**
 * src/components/TVSearch.jsx: the TV search screen. The remote types the
 * query one key at a time; the results (at most 50) are the items whose
 * lower-cased name or title contains the lower-cased query.
 */
module TvSearch {
  import opened Wrappers
  import Text
  import opened Lists

  const MaxResults: nat := 50

  datatype ContentItem = ContentItem(name: Option<string>, title: Option<string>)

  predicate Matches(item: ContentItem, lowerQuery: string) {
    Text.Contains(Text.Lower(OrElse(item.name, OrElse(item.title, ""))), lowerQuery)
  }

  /** The filter applied for a lower-cased query. */
  function MatchesQuery(lowerQuery: string): ContentItem -> bool {
    (x: ContentItem) => Matches(x, lowerQuery)
  }

  /**
   * The filtering effect: nothing for a blank query, else the first matching
   * items. A query is blank when trimming leaves nothing, which is to say
   * when it is all white space (Text.BlankIffAllSpace).
   */
  function Results(items: seq<ContentItem>, query: string): (r: seq<ContentItem>)
    ensures |r| <= MaxResults
  {
    if Text.AllSpace(query) then []
    else Take(Filter(items, MatchesQuery(Text.Lower(query))), MaxResults)
  }

  /** A query that trims to nothing gives no results. */
  lemma ResultsBlank(items: seq<ContentItem>, query: string)
    requires Text.Trim(query) == ""
    ensures Results(items, query) == []
  {
    Text.BlankIffAllSpace(query);
  }

  /** For a query that is not blank, the results are the first matching items, in order; all of them when fewer than 50 match. */
  lemma ResultsMatch(items: seq<ContentItem>, query: string)
    requires Text.Trim(query) != ""
    ensures SubsequenceOf(Results(items, query), items)
    ensures forall x :: x in Results(items, query) ==> Matches(x, Text.Lower(query))
    ensures |Results(items, query)| < MaxResults ==>
      forall x :: x in items && Matches(x, Text.Lower(query)) ==> x in Results(items, query)
    ensures FirstPassing(Results(items, query), items, MatchesQuery(Text.Lower(query)), MaxResults)
  {
    Text.BlankIffAllSpace(query);
    var keep := MatchesQuery(Text.Lower(query));
    var all := Filter(items, keep);
    var r := Take(all, MaxResults);
    assert Results(items, query) == r;
    FilterIsSubsequence(items, keep);
    PrefixIsSubsequence(all, |r|);
    assert r == all[..|r|];
    SubsequenceTransitive(r, all, items);
    assert forall x :: x in items && keep(x) ==> x in all by {
      forall x | x in items && keep(x) ensures x in all {
        FilterKeeps(items, keep, x);
      }
    }
    assert forall x :: x in r ==> x in all;
    TakeFilterFirstPassing(items, keep, MaxResults);
  }

  /** A key the screen types into the query: one letter a-z or A-Z, digit or white-space character. */
  predicate TypedKey(key: string) {
    |key| == 1 && (('a' <= key[0] <= 'z') || ('A' <= key[0] <= 'Z') || ('0' <= key[0] <= '9') || Text.IsSpace(key[0]))
  }

  /** `prev.slice(0, -1)` */
  function DropLast(s: string): (r: string)
    ensures s == [] ==> r == []
    ensures s != [] ==> r + [s[|s| - 1]] == s
  {
    if s == [] then [] else s[..|s| - 1]
  }

  datatype KeyOutcome = KeyOutcome(selected: Option<ContentItem>, closed: bool)

  class TvSearchScreen {
    const allContent: seq<ContentItem>
    var query: string
    var results: seq<ContentItem>
    var selectedIndex: int

    predicate Valid()
      reads this
    {
      results == Results(allContent, query)
    }

    constructor (allContent: seq<ContentItem>)
      ensures Valid() && this.allContent == allContent && query == "" && selectedIndex == 0
    {
      this.allContent := allContent;
      query := "";
      results := Results(allContent, "");
      selectedIndex := 0;
    }

    /** setSearchQuery and the filtering effect, which runs only when the query changes. */
    method SetQuery(q: string)
      modifies this`query, this`results, this`selectedIndex
      ensures query == q && results == Results(allContent, q)
      ensures q != old(query) ==> selectedIndex == 0
      ensures q == old(query) ==> selectedIndex == old(selectedIndex) && results == old(results)
      requires Valid()
    {
      if q != query {
        query := q;
        results := Results(allContent, q);
        selectedIndex := 0;
      }
    }

    /** handleKeyDown */
    method HandleKey(key: string) returns (outcome: KeyOutcome)
      requires Valid()
      modifies this`query, this`results, this`selectedIndex
      ensures Valid()
      ensures key == "ArrowDown" ==> selectedIndex == (if old(selectedIndex) + 1 < |results| - 1 then old(selectedIndex) + 1 else |results| - 1)
      ensures key == "ArrowUp" ==> selectedIndex == (if old(selectedIndex) - 1 > 0 then old(selectedIndex) - 1 else 0)
      ensures outcome.selected.Some? <==> key == "Enter" && 0 <= old(selectedIndex) < |old(results)|
      ensures outcome.selected.Some? ==> outcome.selected.value == old(results)[old(selectedIndex)]
      ensures outcome.closed <==> key == "Escape"
      ensures key == "Backspace" ==> query == DropLast(old(query))
      ensures key == "Backspace" && old(query) == "" ==> selectedIndex == old(selectedIndex)
      ensures key == "Backspace" && old(query) != "" ==> selectedIndex == 0
      ensures TypedKey(key) ==> query == old(query) + key && selectedIndex == 0
      ensures key != "ArrowDown" && key != "ArrowUp" && key != "Backspace" && !TypedKey(key) ==>
        query == old(query) && results == old(results) && selectedIndex == old(selectedIndex)
      ensures key != "ArrowDown" && key != "ArrowUp" && key != "Backspace" && key != "Enter" && key != "Escape" && TypedKey(key) ==>
        query == old(query) + key
      ensures key == "Backspace" || (key != "ArrowDown" && key != "ArrowUp" && key != "Enter" && key != "Escape" && TypedKey(key))
        || query == old(query)
    {
      outcome := KeyOutcome(None, false);
      if key == "ArrowDown" {
        selectedIndex := if selectedIndex + 1 < |results| - 1 then selectedIndex + 1 else |results| - 1;
      } else if key == "ArrowUp" {
        selectedIndex := if selectedIndex - 1 > 0 then selectedIndex - 1 else 0;
      } else if key == "Enter" {
        if 0 <= selectedIndex < |results| {
          outcome := KeyOutcome(Some(results[selectedIndex]), false);
        }
      } else if key == "Backspace" {
        SetQuery(DropLast(query));
      } else if key == "Escape" {
        outcome := KeyOutcome(None, true);
      } else if TypedKey(key) {
        SetQuery(query + key);
      }
    }
  }

  /** Backspace on an empty query changes nothing, not even the selection. */
  method BackspaceOnEmpty(screen: TvSearchScreen)
    requires screen.Valid() && screen.query == ""
    modifies screen
    ensures screen.query == "" && screen.selectedIndex == old(screen.selectedIndex)
  {
    var o := screen.HandleKey("Backspace");
  }
}
