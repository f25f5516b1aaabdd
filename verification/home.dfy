/**
 * The home screen's logic: the featured rows (first 15 of each list), the
 * global search list built from every category and deduplicated by id, the
 * navigation performed when an item is clicked, and the type the TV layout
 * assigns to an item from the title of its row.
 */
module Home {
  import opened Wrappers
  import Text
  import Lists
  import JsMap
  import RowTitles

  /** Featured rows show at most this many items. */
  const FeaturedLimit: nat := 15

  /** The saved progress of an item (`item.watchProgress`). */
  datatype WatchProgress = WatchProgress(lastTime: Option<real>, lastChapter: Option<int>, lastSeason: Option<int>)

  /** The fields of a content item the home screen reads. */
  datatype HomeItem = HomeItem(
    id: Option<string>, mongoId: Option<string>,
    itemType: Option<string>, tipo: Option<string>,
    watchProgress: Option<WatchProgress>)

  // ------------------------------------------------------------ featured

  /**
   * A featured row: the first 15 elements of a fulfilled array result, or the
   * empty row when the request failed or did not return an array.
   */
  function Featured<T>(result: Option<seq<T>>): (r: seq<T>)
    ensures |r| <= FeaturedLimit
    ensures result.None? ==> r == []
    ensures result.Some? ==> |r| == (if |result.value| <= FeaturedLimit then |result.value| else FeaturedLimit)
    ensures result.Some? ==> r == result.value[..|r|]
  {
    match result
    case None => []
    case Some(v) => Lists.Take(v, FeaturedLimit)
  }

  /** The list a category contributes to search: its full list when non-empty, else its featured row. */
  function PickList<T>(all: seq<T>, featured: seq<T>): (r: seq<T>)
    ensures |all| > 0 ==> r == all
    ensures |all| == 0 ==> r == featured
  {
    if |all| > 0 then all else featured
  }

  // -------------------------------------------------------------- search

  /** A search entry: the item spread with its category as `type` and the overriding `itemType`. */
  datatype SearchEntry = SearchEntry(item: HomeItem, category: string, entryType: Option<string>)

  /** Every item of a category, labelled. */
  function Tag(items: seq<HomeItem>, category: string, kind: string): (r: seq<SearchEntry>)
    ensures |r| == |items|
    ensures forall i :: 0 <= i < |r| ==> r[i] == SearchEntry(items[i], category, Some(kind))
  {
    seq(|items|, i requires 0 <= i < |items| => SearchEntry(items[i], category, Some(kind)))
  }

  /** A recently added item keeps its own `tipo` as category (else "contenido") and `itemType || tipo`. */
  function TagRecent(items: seq<HomeItem>): (r: seq<SearchEntry>)
    ensures |r| == |items|
    ensures forall i :: 0 <= i < |r| ==>
      r[i].item == items[i] && r[i].category == OrElse(items[i].tipo, "contenido")
      && r[i].entryType == Or(items[i].itemType, items[i].tipo)
  {
    seq(|items|, i requires 0 <= i < |items| =>
      SearchEntry(items[i], OrElse(items[i].tipo, "contenido"), Or(items[i].itemType, items[i].tipo)))
  }

  /** A continue-watching item is labelled "continuar viendo" and keeps `itemType || tipo`. */
  function TagContinue(items: seq<HomeItem>): (r: seq<SearchEntry>)
    ensures |r| == |items|
    ensures forall i :: 0 <= i < |r| ==>
      r[i] == SearchEntry(items[i], "continuar viendo", Or(items[i].itemType, items[i].tipo))
  {
    seq(|items|, i requires 0 <= i < |items| =>
      SearchEntry(items[i], "continuar viendo", Or(items[i].itemType, items[i].tipo)))
  }

  /** The lists the search is built from, each already chosen by PickList. */
  datatype Catalogue = Catalogue(
    channels: seq<HomeItem>, movies: seq<HomeItem>, series: seq<HomeItem>,
    animes: seq<HomeItem>, doramas: seq<HomeItem>, novelas: seq<HomeItem>,
    documentales: seq<HomeItem>, recentlyAdded: seq<HomeItem>, continueWatching: seq<HomeItem>)

  /** The search list before deduplication, category by category in a fixed order. */
  function SearchEntries(c: Catalogue): (r: seq<SearchEntry>)
    ensures |r| == |c.channels| + |c.movies| + |c.series| + |c.animes| + |c.doramas|
      + |c.novelas| + |c.documentales| + |c.recentlyAdded| + |c.continueWatching|
    ensures r[..|c.channels|] == Tag(c.channels, "canal", "channel")
  {
    Tag(c.channels, "canal", "channel") + Tag(c.movies, "película", "movie")
    + Tag(c.series, "serie", "serie") + Tag(c.animes, "anime", "anime")
    + Tag(c.doramas, "dorama", "dorama") + Tag(c.novelas, "novela", "novela")
    + Tag(c.documentales, "documental", "documental")
    + TagRecent(c.recentlyAdded) + TagContinue(c.continueWatching)
  }

  /** The deduplication key `item.id || item._id`; None stands for `undefined`, itself one key. */
  function Key(e: SearchEntry): (r: Option<string>)
    ensures Truthy(e.item.id) ==> r == e.item.id
    ensures !Truthy(e.item.id) ==> r == e.item.mongoId
  {
    Or(e.item.id, e.item.mongoId)
  }

  function KeyedPairs(entries: seq<SearchEntry>): (r: seq<(Option<string>, SearchEntry)>)
    ensures |r| == |entries|
    ensures forall i :: 0 <= i < |r| ==> r[i] == (Key(entries[i]), entries[i])
  {
    seq(|entries|, i requires 0 <= i < |entries| => (Key(entries[i]), entries[i]))
  }

  /** `Array.from(new Map(entries.map(e => [key(e), e])).values())`. */
  function UniqueEntries(entries: seq<SearchEntry>): (r: seq<SearchEntry>)
    ensures |r| == |JsMap.FromPairs(KeyedPairs(entries))|
    ensures forall i :: 0 <= i < |r| ==> r[i] == JsMap.FromPairs(KeyedPairs(entries))[i].1
  {
    var m := JsMap.FromPairs(KeyedPairs(entries));
    seq(|m|, i requires 0 <= i < |m| => m[i].1)
  }

  /** Every entry of the map is stored under its own key. */
  lemma {:induction false} KeyedEntries(pairs: seq<(Option<string>, SearchEntry)>)
    requires forall i :: 0 <= i < |pairs| ==> pairs[i].0 == Key(pairs[i].1)
    ensures forall e :: e in JsMap.FromPairs(pairs) ==> e.0 == Key(e.1)
  {
    JsMap.FromPairsLastWins(pairs);
    forall e | e in JsMap.FromPairs(pairs) ensures e.0 == Key(e.1) {
      assert JsMap.LastWith(pairs, e);
    }
  }

  /**
   * The deduplicated search list: no two entries share a key, every key of
   * the input is represented, and each entry is the LAST input entry with
   * its key.
   */
  lemma UniqueEntriesDedup(entries: seq<SearchEntry>)
    ensures var r := UniqueEntries(entries);
      && (forall a, b :: 0 <= a < b < |r| ==> Key(r[a]) != Key(r[b]))
      && (forall e :: e in entries ==> exists x :: x in r && Key(x) == Key(e))
      && (forall a :: 0 <= a < |r| ==> LastWithKey(entries, r[a]))
  {
    UniqueKeys(entries);
    EveryKeyKept(entries);
    LastEntries(entries);
  }

  lemma UniqueKeys(entries: seq<SearchEntry>)
    ensures var r := UniqueEntries(entries);
      forall a, b :: 0 <= a < b < |r| ==> Key(r[a]) != Key(r[b])
  {
    var pairs := KeyedPairs(entries);
    var m := JsMap.FromPairs(pairs);
    var r := UniqueEntries(entries);
    JsMap.FromPairsKeys(pairs);
    KeyedEntries(pairs);
    forall a, b | 0 <= a < b < |r| ensures Key(r[a]) != Key(r[b]) {
      assert m[a] in m && m[b] in m;
      assert m[a].0 != m[b].0;
    }
  }

  lemma EveryKeyKept(entries: seq<SearchEntry>)
    ensures var r := UniqueEntries(entries);
      forall e :: e in entries ==> exists x :: x in r && Key(x) == Key(e)
  {
    var pairs := KeyedPairs(entries);
    var m := JsMap.FromPairs(pairs);
    var r := UniqueEntries(entries);
    JsMap.FromPairsKeys(pairs);
    KeyedEntries(pairs);
    forall e | e in entries ensures exists x :: x in r && Key(x) == Key(e) {
      var i :| 0 <= i < |entries| && entries[i] == e;
      assert pairs[i].0 == Key(e);
      assert JsMap.HasKey(pairs, Key(e));
      var p :| 0 <= p < |m| && m[p].0 == Key(e);
      assert m[p] in m;
      assert r[p] in r && Key(r[p]) == Key(e);
    }
  }

  lemma LastEntries(entries: seq<SearchEntry>)
    ensures var r := UniqueEntries(entries);
      forall a :: 0 <= a < |r| ==> LastWithKey(entries, r[a])
  {
    var pairs := KeyedPairs(entries);
    var m := JsMap.FromPairs(pairs);
    var r := UniqueEntries(entries);
    JsMap.FromPairsLastWins(pairs);
    KeyedEntries(pairs);
    forall a | 0 <= a < |r| ensures LastWithKey(entries, r[a]) {
      assert m[a] in m;
      var i :| 0 <= i < |pairs| && pairs[i] == m[a] && forall j :: i < j < |pairs| ==> pairs[j].0 != m[a].0;
      assert entries[i] == r[a];
    }
  }

  /** `e` is in `entries`, and no later entry has its key. */
  ghost predicate LastWithKey(entries: seq<SearchEntry>, e: SearchEntry) {
    exists i :: 0 <= i < |entries| && entries[i] == e && forall j :: i < j < |entries| ==> Key(entries[j]) != Key(e)
  }

  // ---------------------------------------------------------- navigation

  /** Math.round: halves round towards +infinity. */
  function Round(x: real): (r: int)
    ensures x - 0.5 < r as real <= x + 0.5
  {
    (x + 0.5).Floor
  }

  /** The route state handed to the player. */
  datatype NavState = NavState(continueWatching: bool, startTime: Option<int>,
                               seasonIndex: Option<int>, chapterIndex: Option<int>)

  datatype ClickOutcome =
    | Abort                                              // "Cannot determine the content to play."
    | Navigate(path: string, state: Option<NavState>)    // state None: navigation without state

  /** `item.itemType || item.tipo || itemTypeFromCarousel`. */
  function ClickType(item: HomeItem, fromCarousel: Option<string>): (r: Option<string>)
    ensures Truthy(r) <==> Truthy(item.itemType) || Truthy(item.tipo) || Truthy(fromCarousel)
  {
    Or(Or(item.itemType, item.tipo), fromCarousel)
  }

  /** The start second: the saved lastTime rounded, or 0 without one. */
  function StartTime(item: HomeItem): (r: int)
    ensures item.watchProgress.None? || item.watchProgress.value.lastTime.None? ==> r == 0
    ensures item.watchProgress.Some? && item.watchProgress.value.lastTime.Some? ==>
      r == Round(item.watchProgress.value.lastTime.value)
  {
    match item.watchProgress
    case None => 0
    case Some(p) => if p.lastTime.Some? then Round(p.lastTime.value) else 0
  }

  /** `progress.lastChapter || 0`. */
  function LastChapter(item: HomeItem): int {
    if item.watchProgress.Some? && item.watchProgress.value.lastChapter.Some? then item.watchProgress.value.lastChapter.value else 0
  }

  /** `progress.lastSeason !== undefined ? progress.lastSeason : 0`. */
  function LastSeason(item: HomeItem): int {
    if item.watchProgress.Some? && item.watchProgress.value.lastSeason.Some? then item.watchProgress.value.lastSeason.value else 0
  }

  /** The route state of a VOD item. */
  function VodState(item: HomeItem, kind: string, fromCarousel: Option<string>): NavState {
    var start := StartTime(item);
    if fromCarousel == Some("continue-watching") || start > 5 then
      if kind == "serie" || kind == "series" then
        NavState(true, Some(start), Some(LastSeason(item)), Some(LastChapter(item)))
      else NavState(true, Some(start), None, None)
    else NavState(false, None, None, None)
  }

  /**
   * handleItemClick once access has been granted: abort without a type or an
   * id; channels open `/watch/channel/<id>` without state; other content opens
   * `/watch/<type>/<id>` with a state that resumes playback only when the click
   * came from the continue-watching row or more than five seconds were watched,
   * and that names the season and chapter only for series.
   */
  function ItemClick(item: HomeItem, fromCarousel: Option<string>): (r: ClickOutcome)
    ensures r.Abort? <==> !Truthy(ClickType(item, fromCarousel)) || !Truthy(Or(item.id, item.mongoId))
    ensures r.Navigate? ==>
      var kind := ClickType(item, fromCarousel).value;
      && r.path == "/watch/" + kind + "/" + Or(item.id, item.mongoId).value
      && (r.state.None? <==> kind == "channel")
      && (r.state.Some? ==>
        && (r.state.value.continueWatching <==> fromCarousel == Some("continue-watching") || StartTime(item) > 5)
        && (r.state.value.startTime.Some? <==> r.state.value.continueWatching)
        && (r.state.value.startTime.Some? ==> r.state.value.startTime.value == StartTime(item))
        && (r.state.value.seasonIndex.Some? <==> r.state.value.continueWatching && (kind == "serie" || kind == "series"))
        && (r.state.value.chapterIndex.Some? <==> r.state.value.seasonIndex.Some?)
        && (r.state.value.seasonIndex.Some? ==>
          r.state.value.seasonIndex.value == LastSeason(item) && r.state.value.chapterIndex.value == LastChapter(item)))
  {
    var kind := ClickType(item, fromCarousel);
    var id := Or(item.id, item.mongoId);
    if !Truthy(kind) || !Truthy(id) then Abort
    else if kind.value == "channel" then Navigate("/watch/" + kind.value + "/" + id.value, None)
    else Navigate("/watch/" + kind.value + "/" + id.value, Some(VodState(item, kind.value, fromCarousel)))
  }

  /** A series resumed with no saved season or chapter starts at season 0, chapter 0. */
  lemma ResumeDefaultsToFirstEpisode(item: HomeItem, fromCarousel: Option<string>)
    requires item.watchProgress == Some(WatchProgress(Some(42.4), None, None))
    requires item.tipo == Some("serie") && item.itemType.None?
    requires Truthy(item.id)
    ensures ItemClick(item, fromCarousel) ==
      Navigate("/watch/serie/" + item.id.value, Some(NavState(true, Some(42), Some(0), Some(0))))
  {
    assert StartTime(item) == 42;
  }

  // ----------------------------------------------------------- TV layout

  /** A row of the TV layout. */
  datatype TvSection = TvSection(title: string, items: seq<HomeItem>)

  /** The rows of the TV layout, empty ones dropped. */
  function TvSections(rows: seq<TvSection>): (r: seq<TvSection>)
    ensures forall s :: s in r ==> s in rows && |s.items| > 0
    ensures forall s :: s in rows && |s.items| > 0 ==> s in r
    ensures Lists.SubsequenceOf(r, rows)
    ensures Lists.FilteredBy(r, rows, (s: TvSection) => |s.items| > 0)
  {
    Lists.FilterIsSubsequence(rows, (s: TvSection) => |s.items| > 0);
    Lists.FilterExact(rows, (s: TvSection) => |s.items| > 0);
    forall s | s in rows && |s.items| > 0 ensures s in Lists.Filter(rows, (s: TvSection) => |s.items| > 0) {
      Lists.FilterKeeps(rows, (s: TvSection) => |s.items| > 0, s);
    }
    Lists.Filter(rows, (s: TvSection) => |s.items| > 0)
  }

  /** The item type handleTVSelectItem derives from the row title, checked in a fixed order. */
  function TvItemType(sectionTitle: string, item: HomeItem): (r: string)
    ensures Text.Contains(sectionTitle, "Canales") ==> r == "channel"
    ensures !Text.Contains(sectionTitle, "Canales") && Text.Contains(sectionTitle, "Series") ==> r == "serie"
    ensures RowTitles.NoKindWord(sectionTitle) && Text.Contains(sectionTitle, "Continuar") ==>
      r == OrElse(Or(item.tipo, item.itemType), "movie")
    ensures RowTitles.NoKindWord(sectionTitle) && !Text.Contains(sectionTitle, "Continuar") ==> r == "movie"
    ensures r in {"channel", "serie", "anime", "dorama", "novela", "documental", "movie"}
      || r == OrElse(Or(item.tipo, item.itemType), "movie")
  {
    if Text.Contains(sectionTitle, "Canales") then "channel"
    else if Text.Contains(sectionTitle, "Series") then "serie"
    else if Text.Contains(sectionTitle, "Animes") then "anime"
    else if Text.Contains(sectionTitle, "Doramas") then "dorama"
    else if Text.Contains(sectionTitle, "Novelas") then "novela"
    else if Text.Contains(sectionTitle, "Documentales") then "documental"
    else if Text.Contains(sectionTitle, "Continuar") then OrElse(Or(item.tipo, item.itemType), "movie")
    else "movie"
  }

  /** handleTVSelectItem: handleItemClick with the type derived from the row. */
  function TvSelectItem(sections: seq<TvSection>, sectionIndex: nat, item: HomeItem): (r: ClickOutcome)
    requires sectionIndex < |sections|
    ensures r == ItemClick(item, Some(TvItemType(sections[sectionIndex].title, item)))
    ensures r.Abort? <==> !Truthy(Or(item.id, item.mongoId))
  {
    ItemClick(item, Some(TvItemType(sections[sectionIndex].title, item)))
  }

  /** The live-channel row opens channels. */
  lemma ChannelRowType(item: HomeItem)
    ensures TvItemType("Canales en Vivo", item) == "channel"
  {
    RowTitles.StartsWith("Canales en Vivo", "Canales");
  }

  /** The series row opens series. */
  lemma SeriesRowType(item: HomeItem)
    ensures TvItemType("Series Populares", item) == "serie"
  {
    RowTitles.MissingChar("Series Populares", "Canales", 'C');
    RowTitles.StartsWith("Series Populares", "Series");
  }

  /** "Películas Destacadas" names no kind and falls through to "movie". */
  lemma MoviesRowType(item: HomeItem)
    ensures TvItemType("Películas Destacadas", item) == "movie"
  {
    RowTitles.MoviesTitleNamesNoKind();
    RowTitles.MissingChar("Películas Destacadas", "Continuar", 'C');
  }

  /** "Recién Agregados" names no kind either, so the type it passes on is "movie". */
  lemma RecentRowType(item: HomeItem)
    ensures TvItemType("Recién Agregados", item) == "movie"
  {
    RowTitles.RecentTitleNamesNoKind();
    RowTitles.MissingChar("Recién Agregados", "Continuar", 'C');
  }

  /** The continue-watching row uses the item's `tipo || itemType`, else "movie". */
  lemma ContinueRowType(item: HomeItem)
    ensures TvItemType("Continuar Viendo", item) == OrElse(Or(item.tipo, item.itemType), "movie")
  {
    RowTitles.ContinueTitleNamesNoKind();
    RowTitles.StartsWith("Continuar Viendo", "Continuar");
  }

}
