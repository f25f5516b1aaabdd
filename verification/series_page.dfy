/**
 * src/pages/SeriesPage.jsx: the series list filtered by subcategory and by
 * a search term over name, description and genres.
 */
module SeriesPage {
  import opened Wrappers
  import Text
  import opened Lists
  import MoviesPage

  datatype Serie = Serie(name: Option<string>, description: Option<string>, genres: MoviesPage.GenreField, subcategoria: Option<string>)

  predicate MatchesSubcategoria(s: Serie, selected: string) {
    selected == "TODOS" || s.subcategoria == Some(selected)
  }

  /** A truthy string that contains the term once lower-cased. */
  predicate TruthyContains(v: Option<string>, term: string) {
    v.Some? && v.value != "" && Text.Contains(Text.Lower(v.value), term)
  }

  /** A genre string is tested even when empty; the entries of a list only when truthy. */
  predicate GenreContains(g: MoviesPage.GenreField, term: string) {
    match g
    case GenreList(gs) => exists x :: x in gs && x != "" && Text.Contains(Text.Lower(x), term)
    case GenreOne(x) => Text.Contains(Text.Lower(x), term)
    case NoGenre => false
  }

  predicate MatchesSearch(s: Serie, term: string) {
    TruthyContains(s.name, term) || TruthyContains(s.description, term) || GenreContains(s.genres, term)
  }

  /** The filter callback of filteredSeries. */
  predicate Shown(s: Serie, selectedSubcategoria: string, searchTerm: string) {
    MatchesSubcategoria(s, selectedSubcategoria)
    && (searchTerm != "" ==> MatchesSearch(s, Text.Trim(Text.Lower(searchTerm))))
  }

  /** filteredSeries: exactly the series the callback accepts, in order. */
  function FilteredSeries(series: seq<Serie>, selectedSubcategoria: string, searchTerm: string): (r: seq<Serie>)
    ensures SubsequenceOf(r, series)
    ensures forall s :: s in r <==> s in series && Shown(s, selectedSubcategoria, searchTerm)
    ensures FilteredBy(r, series, (s: Serie) => Shown(s, selectedSubcategoria, searchTerm))
  {
    var keep := (s: Serie) => Shown(s, selectedSubcategoria, searchTerm);
    FilterIsSubsequence(series, keep);
    FilterExact(series, keep);
    assert forall s :: s in series && keep(s) ==> s in Filter(series, keep) by {
      forall s | s in series && keep(s) ensures s in Filter(series, keep) {
        FilterKeeps(series, keep, s);
      }
    }
    Filter(series, keep)
  }

  /** "TODOS" with no search term shows every series in order. */
  lemma TodosWithoutSearchShowsAll(series: seq<Serie>)
    ensures FilteredSeries(series, "TODOS", "") == series
  {
    FilterAllPass(series, (s: Serie) => Shown(s, "TODOS", ""));
  }

  /** Without a search term only the subcategory decides. */
  lemma NoSearchOnlySubcategory(s: Serie, selected: string)
    ensures Shown(s, selected, "") <==> MatchesSubcategoria(s, selected)
  {
  }

  /** A search of spaces trims to "", which any genre string contains but an empty name does not. */
  lemma BlankSearchKeepsGenreStrings(s: Serie, selected: string)
    requires s.genres.GenreOne? && MatchesSubcategoria(s, selected)
    ensures Shown(s, selected, " ")
  {
    assert Text.Lower(" ") == " ";
    assert Text.AllSpace(" ");
    Text.BlankIffAllSpace(" ");
    Text.ContainsEmpty(Text.Lower(s.genres.g));
  }
}
