/**
 * src/components/SeriesManager.jsx: the series administration list (series
 * and anime together, searchable by title, each with its chapter count) and
 * the editor of one series' seasons and chapters.
 */
module SeriesManager {
  import opened Wrappers
  import Text
  import Numbers
  import opened Lists
  import opened SeasonEdits

  /** A season as stored: its chapter list may be missing. */
  datatype StoredSeason = StoredSeason(chapters: Option<seq<Chapter>>)

  datatype SeriesItem = SeriesItem(id: string, title: Option<string>, seasons: Option<seq<StoredSeason>>)

  /** fetchSeries: the series, then the anime; a missing list counts as empty. */
  function Combined(seriesVideos: Option<seq<SeriesItem>>, animeVideos: Option<seq<SeriesItem>>): (r: seq<SeriesItem>)
    ensures |r| == |seriesVideos.GetOr([])| + |animeVideos.GetOr([])|
    ensures r[..|seriesVideos.GetOr([])|] == seriesVideos.GetOr([])
    ensures r[|seriesVideos.GetOr([])|..] == animeVideos.GetOr([])
  {
    seriesVideos.GetOr([]) + animeVideos.GetOr([])
  }

  function NormalizedTitle(s: SeriesItem): string {
    Text.Normalize(if s.title.Some? then s.title.value else "")
  }

  /** filteredSeries: the series whose normalised title contains the normalised search term, in order. */
  function FilteredSeries(series: seq<SeriesItem>, searchTerm: string): (r: seq<SeriesItem>)
    ensures SubsequenceOf(r, series)
    ensures forall s :: s in r <==> s in series && Text.Contains(NormalizedTitle(s), Text.Normalize(searchTerm))
    ensures FilteredBy(r, series, (s: SeriesItem) => Text.Contains(NormalizedTitle(s), Text.Normalize(searchTerm)))
  {
    var q := Text.Normalize(searchTerm);
    var keep := (s: SeriesItem) => Text.Contains(NormalizedTitle(s), q);
    FilterIsSubsequence(series, keep);
    FilterExact(series, keep);
    assert forall s :: s in series && keep(s) ==> s in Filter(series, keep) by {
      forall s | s in series && keep(s) ensures s in Filter(series, keep) {
        FilterKeeps(series, keep, s);
      }
    }
    Filter(series, keep)
  }

  /** An empty search term keeps every series in its order. */
  lemma EmptySearchKeepsAll(series: seq<SeriesItem>)
    ensures FilteredSeries(series, "") == series
  {
    var keep := (s: SeriesItem) => Text.Contains(NormalizedTitle(s), "");
    forall s | s in series ensures keep(s) {
      Text.ContainsEmpty(NormalizedTitle(s));
    }
    FilterAllPass(series, keep);
  }

  function ChaptersOf(season: StoredSeason): seq<Chapter> {
    if season.chapters.Some? then season.chapters.value else []
  }

  /** The count SeriesPreview shows: `seasons.reduce((acc, s) => acc + (s.chapters?.length || 0), 0)`, or 0. */
  function ChapterCount(seasons: Option<seq<StoredSeason>>): nat {
    if seasons.None? then 0 else ChapterTotal(seasons.value)
  }

  function ChapterTotal(seasons: seq<StoredSeason>): nat {
    if seasons == [] then 0 else ChapterTotal(seasons[..|seasons| - 1]) + |ChaptersOf(seasons[|seasons| - 1])|
  }

  /** Every chapter of the seasons that list theirs, in order. */
  function AllListedChapters(seasons: seq<StoredSeason>): seq<Chapter> {
    if seasons == [] then [] else ChaptersOf(seasons[0]) + AllListedChapters(seasons[1..])
  }

  lemma {:induction false} ListedChaptersAppend(a: seq<StoredSeason>, b: seq<StoredSeason>)
    ensures AllListedChapters(a + b) == AllListedChapters(a) + AllListedChapters(b)
  {
    if a != [] {
      ListedChaptersAppend(a[1..], b);
      assert (a + b)[1..] == a[1..] + b;
    } else {
      assert a + b == b;
    }
  }

  /** The count is the number of chapters of the seasons that list theirs, and a missing list adds nothing. */
  lemma {:induction false} ChapterCountCountsListedChapters(seasons: seq<StoredSeason>)
    ensures ChapterCount(Some(seasons)) == |AllListedChapters(seasons)|
  {
    if seasons != [] {
      var n := |seasons|;
      ChapterCountCountsListedChapters(seasons[..n - 1]);
      ListedChaptersAppend(seasons[..n - 1], [seasons[n - 1]]);
      assert seasons[..n - 1] + [seasons[n - 1]] == seasons;
      assert AllListedChapters([seasons[n - 1]]) == ChaptersOf(seasons[n - 1]) by {
        assert [seasons[n - 1]][1..] == [];
      }
    }
  }

  /** SeriesEditor: the copy of one series being edited. */
  class SeriesEditor {
    var title: string
    var tipo: string
    var seasons: seq<FormSeason>

    constructor (title: string, tipo: string, seasons: seq<FormSeason>)
      ensures this.title == title && this.tipo == tipo && this.seasons == seasons
    {
      this.title, this.tipo, this.seasons := title, tipo, seasons;
    }

    /** handleAddSeason: season len+1 with one empty chapter. */
    method AddSeason()
      modifies this`seasons
      ensures seasons == SeasonEdits.AddSeason(old(seasons))
    {
      seasons := SeasonEdits.AddSeason(seasons);
    }

    /** handleRemoveSeason: the rest are renumbered 1..n. */
    method RemoveSeason(index: int)
      modifies this`seasons
      ensures seasons == SeasonEdits.RemoveSeason(old(seasons), index)
      ensures NumberedInOrder(seasons)
    {
      seasons := SeasonEdits.RemoveSeason(seasons, index);
    }

    /** handleAddChapter: "Capítulo k" with an empty URL, k one past the season's chapter count. */
    method AddChapter(si: nat)
      requires si < |seasons|
      modifies this`seasons
      ensures var cs := old(seasons)[si].chapters;
        seasons == WithChapters(old(seasons), si, cs + [Chapter("Capítulo " + Numbers.Decimal(|cs| + 1), "")])
    {
      var cs := seasons[si].chapters;
      seasons := WithChapters(seasons, si, cs + [Chapter("Capítulo " + Numbers.Decimal(|cs| + 1), "")]);
    }

    /** handleRemoveChapter: filters out that index of that season only. */
    method RemoveChapter(si: nat, ci: int)
      requires si < |seasons|
      modifies this`seasons
      ensures seasons == WithChapters(old(seasons), si, FilterOutIndex(old(seasons)[si].chapters, ci))
    {
      seasons := WithChapters(seasons, si, FilterOutIndex(seasons[si].chapters, ci));
    }
  }

  /** A chapter added to a season of k chapters is titled "Capítulo k+1", and the number reads back as k+1. */
  lemma AddedChapterNumber(k: nat)
    ensures var t := "Capítulo " + Numbers.Decimal(k + 1);
      t[..9] == "Capítulo " && Numbers.DigitsValue(t[9..]) == k + 1
  {
    var t := "Capítulo " + Numbers.Decimal(k + 1);
    assert t[9..] == Numbers.Decimal(k + 1);
    Numbers.DecimalRoundTrip(k + 1);
  }
}
