/**
 * src/pages/Colecciones.jsx: films and series that belong to a saga
 * ("Marvel", "Star Wars", ...), filtered by the chosen saga and a search
 * term, then grouped by saga for display.
 */
module Collections {
  import opened Wrappers
  import Text
  import opened Lists

  const Colecciones: seq<string> := [
    "TODAS", "Marvel", "DC Comics", "Fast & Furious", "Harry Potter", "Star Wars", "Jurassic Park",
    "Transformers", "Mission Impossible", "John Wick", "Rocky", "Terminator", "Alien", "Predator",
    "X-Men", "James Bond"]

  datatype Item = Item(name: Option<string>, description: Option<string>, coleccion: Option<string>)

  predicate HasColeccion(item: Item) {
    item.coleccion.Some? && item.coleccion.value != ""
  }

  /** `item.name?.toLowerCase().includes(x.toLowerCase())` */
  predicate NameContains(item: Item, x: string) {
    item.name.Some? && Text.Contains(Text.Lower(item.name.value), Text.Lower(x))
  }

  predicate NamesSomeSaga(item: Item) {
    exists col :: col in Colecciones && col != "TODAS" && NameContains(item, col)
  }

  /** The load step's filter: a collection, or a name that mentions one. */
  predicate InCollection(item: Item) {
    HasColeccion(item) || NamesSomeSaga(item)
  }

  /** The page's content: the films, then the series, kept when they belong to a collection. */
  function CollectionContent(movies: Option<seq<Item>>, series: Option<seq<Item>>): (r: seq<Item>)
    ensures SubsequenceOf(r, movies.GetOr([]) + series.GetOr([]))
    ensures forall it :: it in r <==> it in movies.GetOr([]) + series.GetOr([]) && InCollection(it)
    ensures FilteredBy(r, movies.GetOr([]) + series.GetOr([]), InCollection)
  {
    var all := movies.GetOr([]) + series.GetOr([]);
    FilterIsSubsequence(all, InCollection);
    FilterExact(all, InCollection);
    assert forall it :: it in all && InCollection(it) ==> it in Filter(all, InCollection) by {
      forall it | it in all && InCollection(it) ensures it in Filter(all, InCollection) {
        FilterKeeps(all, InCollection, it);
      }
    }
    Filter(all, InCollection)
  }

  predicate MatchesColeccion(item: Item, selected: string) {
    selected == "TODAS" || item.coleccion == Some(selected) || NameContains(item, selected)
  }

  predicate MatchesSearch(item: Item, searchTerm: string)
    requires item.name.Some?
  {
    searchTerm == ""
    || Text.Contains(Text.Lower(item.name.value), Text.Lower(searchTerm))
    || (item.description.Some? && Text.Contains(Text.Lower(item.description.value), Text.Lower(searchTerm)))
  }

  /**
   * filteredContent. The search test reads `item.name.toLowerCase()` for every
   * item, so a non-empty term and an item without a name make the filter
   * throw: None.
   */
  function FilteredContent(content: seq<Item>, selected: string, searchTerm: string): (r: Option<seq<Item>>)
    ensures r.None? <==> searchTerm != "" && exists it :: it in content && it.name.None?
    ensures r.Some? ==> SubsequenceOf(r.value, content)
    ensures r.Some? ==> forall it :: it in r.value <==>
      it in content && MatchesColeccion(it, selected) && (searchTerm == "" || MatchesSearch(it, searchTerm))
    ensures r.Some? ==> FilteredBy(r.value, content,
      (it: Item) => MatchesColeccion(it, selected) && (searchTerm == "" || (it.name.Some? && MatchesSearch(it, searchTerm))))
  {
    if searchTerm != "" && exists it :: it in content && it.name.None? then None
    else
      var keep := (it: Item) => MatchesColeccion(it, selected) && (searchTerm == "" || (it.name.Some? && MatchesSearch(it, searchTerm)));
      FilterIsSubsequence(content, keep);
      FilterExact(content, keep);
      assert forall it :: it in content && keep(it) ==> it in Filter(content, keep) by {
        forall it | it in content && keep(it) ensures it in Filter(content, keep) {
          FilterKeeps(content, keep, it);
        }
      }
      Some(Filter(content, keep))
  }

  /** "TODAS" without a search term shows the whole content. */
  lemma TodasShowsEverything(content: seq<Item>)
    ensures FilteredContent(content, "TODAS", "") == Some(content)
  {
    FilterAllPass(content, (it: Item) => MatchesColeccion(it, "TODAS") && ("" == "" || (it.name.Some? && MatchesSearch(it, ""))));
  }

  /** `COLECCIONES.find(col => col !== "TODAS" && name includes col)` */
  function FirstSaga(item: Item, cols: seq<string>): (r: Option<string>)
    ensures r.Some? ==> r.value in cols && r.value != "TODAS" && NameContains(item, r.value)
    ensures r.None? <==> forall col :: col in cols && col != "TODAS" ==> !NameContains(item, col)
  {
    if cols == [] then None
    else if cols[0] != "TODAS" && NameContains(item, cols[0]) then Some(cols[0])
    else FirstSaga(item, cols[1..])
  }

  /** The saga found is the first one in list order that the name mentions. */
  lemma {:induction false} FirstSagaIsFirst(item: Item, cols: seq<string>)
    requires FirstSaga(item, cols).Some?
    ensures exists k ::
      && 0 <= k < |cols| && cols[k] == FirstSaga(item, cols).value
      && (forall j :: 0 <= j < k ==> cols[j] == "TODAS" || !NameContains(item, cols[j]))
  {
    if !(cols[0] != "TODAS" && NameContains(item, cols[0])) {
      var tail := cols[1..];
      assert FirstSaga(item, cols) == FirstSaga(item, tail);
      FirstSagaIsFirst(item, tail);
      var k :| 0 <= k < |tail| && tail[k] == FirstSaga(item, tail).value
        && forall j :: 0 <= j < k ==> tail[j] == "TODAS" || !NameContains(item, tail[j]);
      forall j | 0 <= j < k + 1 ensures cols[j] == "TODAS" || !NameContains(item, cols[j]) {
        if j > 0 { assert cols[j] == tail[j - 1]; }
      }
      assert cols[k + 1] == tail[k];
    } else {
      assert cols[0] == FirstSaga(item, cols).value;
    }
  }

  /** The group an item is shown under: its collection, else the first saga its name mentions, else "Otras". */
  function GroupOf(item: Item): (r: string)
    ensures HasColeccion(item) ==> r == item.coleccion.value
    ensures !HasColeccion(item) && !NamesSomeSaga(item) ==> r == "Otras"
    ensures !HasColeccion(item) && NamesSomeSaga(item) ==> r in Colecciones && r != "TODAS" && NameContains(item, r)
  {
    if HasColeccion(item) then item.coleccion.value
    else
      var first := FirstSaga(item, Colecciones);
      if first.Some? then first.value else "Otras"
  }

  /** The groups of a list: each key that occurs, with its items in list order. */
  ghost predicate GroupsOf(groups: map<string, seq<Item>>, items: seq<Item>) {
    && (forall k :: k in groups <==> exists it :: it in items && GroupOf(it) == k)
    && (forall k :: k in groups ==> groups[k] == Filter(items, (it: Item) => GroupOf(it) == k))
  }

  /** Pushing one more item onto its group keeps the map the grouping of the longer list. */
  lemma GroupsStep(groups: map<string, seq<Item>>, items: seq<Item>, item: Item)
    requires GroupsOf(groups, items)
    ensures var k := GroupOf(item);
      GroupsOf(groups[k := (if k in groups then groups[k] else []) + [item]], items + [item])
  {
    var collection := GroupOf(item);
    var after := groups[collection := (if collection in groups then groups[collection] else []) + [item]];
    forall k | k in after
      ensures after[k] == Filter(items + [item], (it: Item) => GroupOf(it) == k)
    {
      GroupStepAt(groups, items, item, k);
    }
    forall k ensures k in after <==> exists it :: it in items + [item] && GroupOf(it) == k {
      if k in after && k != collection {
        var it :| it in items && GroupOf(it) == k;
        assert it in items + [item];
      }
      if k !in after {
        forall it | it in items + [item] ensures GroupOf(it) != k {
          if it != item { assert it in items; }
        }
      }
    }
  }

  /** The one-key part of GroupsStep. */
  lemma GroupStepAt(groups: map<string, seq<Item>>, items: seq<Item>, item: Item, k: string)
    requires GroupsOf(groups, items)
    requires k in groups || k == GroupOf(item)
    ensures var c := GroupOf(item);
      var after := groups[c := (if c in groups then groups[c] else []) + [item]];
      after[k] == Filter(items + [item], (it: Item) => GroupOf(it) == k)
  {
    FilterAppend(items, item, (it: Item) => GroupOf(it) == k);
    if k !in groups {
      EmptyGroup(items, k);
    }
  }

  /** One forEach step: the item pushed onto its group, which is created when missing. */
  function Push(groups: map<string, seq<Item>>, item: Item): map<string, seq<Item>> {
    var k := GroupOf(item);
    groups[k := (if k in groups then groups[k] else []) + [item]]
  }

  function Grouping(items: seq<Item>): map<string, seq<Item>> {
    if items == [] then map[] else Push(Grouping(items[..|items| - 1]), items[|items| - 1])
  }

  /** The pushes build exactly the grouping: each key that occurs, with its items in order. */
  lemma {:induction false} GroupingGroups(items: seq<Item>)
    ensures GroupsOf(Grouping(items), items)
  {
    if items != [] {
      var n := |items|;
      GroupingGroups(items[..n - 1]);
      GroupsStep(Grouping(items[..n - 1]), items[..n - 1], items[n - 1]);
      assert items[..n - 1] + [items[n - 1]] == items;
    }
  }

  /** groupedContent: the forEach loop that pushes each item onto its group. */
  method GroupContent(filtered: seq<Item>) returns (groups: map<string, seq<Item>>)
    ensures GroupsOf(groups, filtered)
  {
    groups := map[];
    var i := 0;
    while i < |filtered|
      invariant 0 <= i <= |filtered|
      invariant groups == Grouping(filtered[..i])
    {
      var item := filtered[i];
      var collection := GroupOf(item);
      var current := if collection in groups then groups[collection] else [];
      groups := groups[collection := current + [item]];
      assert filtered[..i + 1][..i] == filtered[..i];
      i := i + 1;
    }
    assert filtered[..|filtered|] == filtered;
    GroupingGroups(filtered);
  }

  lemma {:induction false} EmptyGroup(items: seq<Item>, k: string)
    requires forall it :: it in items ==> GroupOf(it) != k
    ensures Filter(items, (it: Item) => GroupOf(it) == k) == []
  {
    if items != [] {
      EmptyGroup(items[1..], k);
    }
  }

  /** Each item is in its own group and in no other. */
  lemma EachItemInExactlyOneGroup(groups: map<string, seq<Item>>, items: seq<Item>, it: Item)
    requires GroupsOf(groups, items) && it in items
    ensures GroupOf(it) in groups && it in groups[GroupOf(it)]
    ensures forall k :: k in groups && k != GroupOf(it) ==> it !in groups[k]
  {
    FilterKeeps(items, (x: Item) => GroupOf(x) == GroupOf(it), it);
  }
}
