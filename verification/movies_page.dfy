/**
 * src/pages/MoviesPage.jsx: the films page. The user picks a main section
 * (subject to their plan), then narrows the films by genre and by a search
 * term; the genre menu lists the section's distinct genres in order.
 */
module MoviesPage {
  import opened Wrappers
  import Text
  import opened Lists

  // ------------------------------------------------------------------
  // Code-point order on strings, standing in for localeCompare.

  predicate StrLess(a: string, b: string) {
    if a == [] then b != []
    else if b == [] then false
    else a[0] < b[0] || (a[0] == b[0] && StrLess(a[1..], b[1..]))
  }

  lemma StrLessTotal(a: string, b: string)
    ensures a == b || StrLess(a, b) || StrLess(b, a)
  {
    if a != [] && b != [] && a[0] == b[0] {
      StrLessTotal(a[1..], b[1..]);
      assert a == [a[0]] + a[1..] && b == [b[0]] + b[1..];
    }
  }

  lemma StrLessAsymmetric(a: string, b: string)
    ensures !(StrLess(a, b) && StrLess(b, a))
  {
  }

  lemma StrLessTransitive(a: string, b: string, c: string)
    requires StrLess(a, b) && StrLess(b, c)
    ensures StrLess(a, c)
  {
  }

  /** Strictly increasing, hence without repeats. */
  predicate SortedDistinct(s: seq<string>) {
    forall i, j :: 0 <= i < j < |s| ==> StrLess(s[i], s[j])
  }

  /** Adds `x` to a sorted list of distinct strings unless it is there already. */
  function InsertSorted(x: string, s: seq<string>): (r: seq<string>)
    ensures forall y :: y in r <==> y in s || y == x
  {
    if s == [] then [x]
    else if x == s[0] then s
    else if StrLess(x, s[0]) then [x] + s
    else [s[0]] + InsertSorted(x, s[1..])
  }

  lemma {:induction false} InsertSortedKeepsOrder(x: string, s: seq<string>)
    requires SortedDistinct(s)
    ensures SortedDistinct(InsertSorted(x, s))
  {
    if s != [] && x != s[0] && !StrLess(x, s[0]) {
      InsertSortedKeepsOrder(x, s[1..]);
      StrLessTotal(x, s[0]);
      var rest := InsertSorted(x, s[1..]);
      assert forall y :: y in rest ==> StrLess(s[0], y) by {
        forall y | y in rest ensures StrLess(s[0], y) {
          if y != x {
            var k :| 0 <= k < |s[1..]| && s[1..][k] == y;
            assert s[k + 1] == y;
          }
        }
      }
      var r := [s[0]] + rest;
      forall i, j | 0 <= i < j < |r| ensures StrLess(r[i], r[j]) {
        if i == 0 {
          assert r[j] == rest[j - 1];
        } else {
          assert r[i] == rest[i - 1] && r[j] == rest[j - 1];
        }
      }
    } else if s != [] && StrLess(x, s[0]) {
      var r := [x] + s;
      forall i, j | 0 <= i < j < |r| ensures StrLess(r[i], r[j]) {
        if i == 0 && j > 1 {
          StrLessTransitive(x, s[0], s[j - 1]);
        }
      }
    }
  }

  /** `[...new Set(values.sort())]`: the distinct values in increasing order. */
  function SortDistinct(values: seq<string>): (r: seq<string>)
    ensures forall y :: y in r <==> y in values
  {
    if values == [] then []
    else InsertSorted(values[|values| - 1], SortDistinct(values[..|values| - 1]))
  }

  lemma {:induction false} SortDistinctIsSorted(values: seq<string>)
    ensures SortedDistinct(SortDistinct(values))
  {
    if values != [] {
      SortDistinctIsSorted(values[..|values| - 1]);
      InsertSortedKeepsOrder(values[|values| - 1], SortDistinct(values[..|values| - 1]));
    }
  }

  // ------------------------------------------------------------------
  // Films and the filters of the page.

  /** The genres field: a list, one string, or missing. */
  datatype GenreField = GenreList(gs: seq<string>) | GenreOne(g: string) | NoGenre

  datatype Movie = Movie(title: Option<string>, name: Option<string>, mainSection: Option<string>, genres: GenreField)

  /** The genres a film contributes to the menu: the truthy ones. */
  function GenreValues(m: Movie): (r: seq<string>)
    ensures forall g :: g in r <==> g != "" && (m.genres == GenreOne(g) || (m.genres.GenreList? && g in m.genres.gs))
  {
    match m.genres
    case GenreList(gs) => FilterAllGenres(gs); Filter(gs, (g: string) => g != "")
    case GenreOne(g) => if g != "" then [g] else []
    case NoGenre => []
  }

  lemma FilterAllGenres(gs: seq<string>)
    ensures forall g :: g in gs && g != "" ==> g in Filter(gs, (g: string) => g != "")
  {
    forall g | g in gs && g != "" ensures g in Filter(gs, (g: string) => g != "") {
      FilterKeeps(gs, (g: string) => g != "", g);
    }
  }

  function AllGenreValues(items: seq<Movie>): (r: seq<string>)
    ensures forall g :: g in r <==> exists m :: m in items && g in GenreValues(m)
  {
    if items == [] then []
    else
      assert forall m :: m in items <==> m == items[0] || m in items[1..];
      GenreValues(items[0]) + AllGenreValues(items[1..])
  }

  /**
   * getUniqueValuesFromArray(items, 'genres'): "Todas" followed by every
   * genre of the films, once each and in increasing order; just "Todas"
   * for no films.
   */
  function UniqueGenres(items: seq<Movie>): (r: seq<string>)
    ensures |r| >= 1 && r[0] == "Todas"
    ensures items == [] ==> r == ["Todas"]
    ensures forall g :: g in r[1..] <==> exists m :: m in items && g in GenreValues(m)
    ensures SortedDistinct(r[1..])
  {
    if items == [] then ["Todas"]
    else
      SortDistinctIsSorted(AllGenreValues(items));
      assert (["Todas"] + SortDistinct(AllGenreValues(items)))[1..] == SortDistinct(AllGenreValues(items));
      ["Todas"] + SortDistinct(AllGenreValues(items))
  }

  /** The film belongs to the section; POR_GENERO also takes films with no section. */
  predicate InSection(m: Movie, key: string) {
    if key == "POR_GENERO" then m.mainSection == Some("POR_GENERO") || m.mainSection.None? || m.mainSection == Some("")
    else m.mainSection == Some(key)
  }

  /** normalizeString: without accents, trimmed, lower case. */
  function NormalizeString(s: string): string {
    Text.Trim(Text.Normalize(s))
  }

  predicate GenreMatches(m: Movie, normalizedSelected: string) {
    match m.genres
    case GenreList(gs) => exists g :: g in gs && NormalizeString(g) == normalizedSelected
    case GenreOne(g) => g != "" && NormalizeString(g) == normalizedSelected
    case NoGenre => false
  }

  predicate TitleMatches(m: Movie, term: string) {
    (m.title.Some? && m.title.value != "" && Text.Contains(Text.Lower(m.title.value), term))
    || (m.name.Some? && m.name.value != "" && Text.Contains(Text.Lower(m.name.value), term))
  }

  /** The film passes every filter the page has set. */
  predicate Shown(m: Movie, sectionKey: Option<string>, genre: string, searchTerm: string) {
    && (sectionKey.Some? && sectionKey.value != "" ==> InSection(m, sectionKey.value))
    && (genre != "Todas" ==> GenreMatches(m, NormalizeString(genre)))
    && (searchTerm != "" ==> TitleMatches(m, Text.Trim(Text.Lower(searchTerm))))
  }

  /** Filter, with what it keeps stated both ways. */
  function Keep(ms: seq<Movie>, keep: Movie -> bool): (r: seq<Movie>)
    ensures SubsequenceOf(r, ms)
    ensures forall m :: m in r <==> m in ms && keep(m)
    ensures FilteredBy(r, ms, keep)
  {
    FilterIsSubsequence(ms, keep);
    FilterExact(ms, keep);
    assert forall m :: m in ms && keep(m) ==> m in Filter(ms, keep) by {
      forall m | m in ms && keep(m) ensures m in Filter(ms, keep) {
        FilterKeeps(ms, keep, m);
      }
    }
    Filter(ms, keep)
  }

  lemma SelfSubsequence(ms: seq<Movie>)
    ensures SubsequenceOf(ms, ms)
  {
    PrefixIsSubsequence(ms, |ms|);
    assert ms[..|ms|] == ms;
  }

  function BySection(ms: seq<Movie>, sectionKey: Option<string>): (r: seq<Movie>)
    ensures SubsequenceOf(r, ms)
    ensures forall m :: m in r <==> m in ms && (sectionKey.Some? && sectionKey.value != "" ==> InSection(m, sectionKey.value))
    ensures FilteredBy(r, ms, (m: Movie) => sectionKey.Some? && sectionKey.value != "" ==> InSection(m, sectionKey.value))
  {
    var test := (m: Movie) => sectionKey.Some? && sectionKey.value != "" ==> InSection(m, sectionKey.value);
    if sectionKey.Some? && sectionKey.value != "" then
      var r := Keep(ms, (m: Movie) => InSection(m, sectionKey.value));
      assert FilteredBy(r, ms, test);
      r
    else SelfSubsequence(ms); FilteredBySelf(ms, test); ms
  }

  function ByGenre(ms: seq<Movie>, genre: string): (r: seq<Movie>)
    ensures SubsequenceOf(r, ms)
    ensures forall m :: m in r <==> m in ms && (genre != "Todas" ==> GenreMatches(m, NormalizeString(genre)))
    ensures FilteredBy(r, ms, (m: Movie) => genre != "Todas" ==> GenreMatches(m, NormalizeString(genre)))
  {
    var selected := NormalizeString(genre);
    var test := (m: Movie) => genre != "Todas" ==> GenreMatches(m, NormalizeString(genre));
    if genre != "Todas" then
      var r := Keep(ms, (m: Movie) => GenreMatches(m, selected));
      assert FilteredBy(r, ms, test);
      r
    else SelfSubsequence(ms); FilteredBySelf(ms, test); ms
  }

  function BySearch(ms: seq<Movie>, searchTerm: string): (r: seq<Movie>)
    ensures SubsequenceOf(r, ms)
    ensures forall m :: m in r <==> m in ms && (searchTerm != "" ==> TitleMatches(m, Text.Trim(Text.Lower(searchTerm))))
    ensures FilteredBy(r, ms, (m: Movie) => searchTerm != "" ==> TitleMatches(m, Text.Trim(Text.Lower(searchTerm))))
  {
    var term := Text.Trim(Text.Lower(searchTerm));
    var test := (m: Movie) => searchTerm != "" ==> TitleMatches(m, Text.Trim(Text.Lower(searchTerm)));
    if searchTerm != "" then
      var r := Keep(ms, (m: Movie) => TitleMatches(m, term));
      assert FilteredBy(r, ms, test);
      r
    else SelfSubsequence(ms); FilteredBySelf(ms, test); ms
  }

  /** displayedMovies: section, then genre, then search, each an order-preserving filter. */
  function DisplayedMovies(all: seq<Movie>, sectionKey: Option<string>, genre: string, searchTerm: string): (r: seq<Movie>)
    ensures SubsequenceOf(r, all)
    ensures forall m :: m in r <==> m in all && Shown(m, sectionKey, genre, searchTerm)
    ensures FilteredBy(r, all, (m: Movie) => Shown(m, sectionKey, genre, searchTerm))
  {
    var bySection := BySection(all, sectionKey);
    var byGenre := ByGenre(bySection, genre);
    var bySearch := BySearch(byGenre, searchTerm);
    SubsequenceTransitive(byGenre, bySection, all);
    SubsequenceTransitive(bySearch, byGenre, all);
    var inSection := (m: Movie) => sectionKey.Some? && sectionKey.value != "" ==> InSection(m, sectionKey.value);
    var inGenre := (m: Movie) => genre != "Todas" ==> GenreMatches(m, NormalizeString(genre));
    var sectionAndGenre := (m: Movie) => inSection(m) && inGenre(m);
    FilteredByThen(byGenre, bySection, all, inSection, inGenre, sectionAndGenre);
    FilteredByThen(bySearch, byGenre, all, sectionAndGenre,
      (m: Movie) => searchTerm != "" ==> TitleMatches(m, Text.Trim(Text.Lower(searchTerm))),
      (m: Movie) => Shown(m, sectionKey, genre, searchTerm));
    bySearch
  }

  /** The genre menu of the selected section: just "Todas" with no section or no films. */
  function GenresForSection(all: seq<Movie>, sectionKey: Option<string>): (r: seq<string>)
    ensures |r| >= 1 && r[0] == "Todas"
    ensures sectionKey.None? || sectionKey == Some("") || all == [] ==> r == ["Todas"]
    ensures sectionKey.Some? && sectionKey.value != "" ==>
      forall g :: g in r[1..] <==> exists m :: m in all && InSection(m, sectionKey.value) && g in GenreValues(m)
    ensures SortedDistinct(r[1..])
  {
    if sectionKey.None? || sectionKey == Some("") || all == [] then ["Todas"]
    else UniqueGenres(BySection(all, sectionKey))
  }

  // ------------------------------------------------------------------
  // Plans and sections.

  /** isSectionAllowedForPlan: the restricted sections and the plans that open them. */
  function AllowedPlans(sectionKey: string): Option<seq<string>> {
    if sectionKey == "CINE_4K" || sectionKey == "CINE_60FPS" || sectionKey == "CINE_2025" then Some(["cinefilo", "premium"])
    else if sectionKey == "TV_EN_VIVO" then Some(["premium"])
    else if sectionKey == "DORAMAS" then Some(["estandar", "cinefilo", "premium"])
    else None
  }

  /** A section outside the table is open to every plan; a listed one to its plans only. */
  predicate SectionAllowedForPlan(sectionKey: string, userPlan: string) {
    AllowedPlans(sectionKey).None? || userPlan in AllowedPlans(sectionKey).value
  }

  lemma PremiumOpensEverySection(sectionKey: string)
    ensures SectionAllowedForPlan(sectionKey, "premium")
    ensures SectionAllowedForPlan(sectionKey, "gratuito") <==> AllowedPlans(sectionKey).None?
  {
  }

  const GridOptions: seq<int> := [5, 4, 3, 1]

  /** toggleGridView: the next option after the current one; an unknown value restarts at 5. */
  function NextGrid(cols: int): (r: int)
    ensures r in GridOptions
    ensures cols == 5 ==> r == 4
    ensures cols == 4 ==> r == 3
    ensures cols == 3 ==> r == 1
    ensures cols == 1 ==> r == 5
    ensures cols !in GridOptions ==> r == 5
  {
    var i := IndexOf(GridOptions, cols);
    GridOptions[(i + 1) % |GridOptions|]
  }

  /** Array.prototype.indexOf: the first position, or -1. */
  function IndexOf(s: seq<int>, x: int): (r: int)
    ensures -1 <= r < |s|
    ensures r == -1 <==> x !in s
    ensures r >= 0 ==> s[r] == x && forall k :: 0 <= k < r ==> s[k] != x
  {
    if s == [] then -1
    else if s[0] == x then 0
    else var k := IndexOf(s[1..], x); if k == -1 then -1 else k + 1
  }

  /** Four toggles come back to the starting layout. */
  lemma GridCycle(cols: int)
    requires cols in GridOptions
    ensures NextGrid(NextGrid(NextGrid(NextGrid(cols)))) == cols
  {
    assert cols == 5 || cols == 4 || cols == 3 || cols == 1;
  }

  class MoviesPageState {
    var selectedMainSectionKey: Option<string>
    var selectedGenre: string
    var searchTerm: string
    var error: Option<string>
    var gridCols: int

    constructor ()
      ensures selectedMainSectionKey.None? && selectedGenre == "Todas" && searchTerm == "" && error.None? && gridCols == 5
    {
      selectedMainSectionKey, selectedGenre, searchTerm, error, gridCols := None, "Todas", "", None, 5;
    }

    /** handleSelectMainSection: a plan that does not open the section only sets the error. */
    method SelectMainSection(sectionKey: string, userPlan: Option<string>)
      modifies this`selectedMainSectionKey, this`selectedGenre, this`searchTerm, this`error
      ensures var plan := if userPlan.Some? && userPlan.value != "" then userPlan.value else "gratuito";
        if SectionAllowedForPlan(sectionKey, plan) then
          selectedMainSectionKey == Some(sectionKey) && selectedGenre == "Todas" && searchTerm == "" && error == old(error)
        else
          && selectedMainSectionKey == old(selectedMainSectionKey) && selectedGenre == old(selectedGenre)
          && searchTerm == old(searchTerm)
          && error == Some("🎬 Estimado cliente, debe tener el plan "
               + (if Text.Contains(sectionKey, "CINE") then "Cinéfilo o Premium" else "un plan superior")
               + " para acceder a esta sección.")
    {
      var plan := if userPlan.Some? && userPlan.value != "" then userPlan.value else "gratuito";
      if !SectionAllowedForPlan(sectionKey, plan) {
        var requerido := if Text.Contains(sectionKey, "CINE") then "Cinéfilo o Premium" else "un plan superior";
        error := Some("🎬 Estimado cliente, debe tener el plan " + requerido + " para acceder a esta sección.");
        return;
      }
      selectedMainSectionKey := Some(sectionKey);
      selectedGenre := "Todas";
      searchTerm := "";
    }

    /**
     * The timer a refused selection schedules: five seconds later it clears
     * the error, whatever error is shown by then.
     */
    method OnErrorTimeout()
      modifies this`error
      ensures error == None
    {
      error := None;
    }

    method ToggleGridView()
      modifies this`gridCols
      ensures gridCols == NextGrid(old(gridCols))
    {
      gridCols := NextGrid(gridCols);
    }
  }
}
