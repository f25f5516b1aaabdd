/**
 * The watch page (src/pages/Watch.jsx): which endpoint loads the item, which
 * chapter of a series is played, which URL is handed to the player and where
 * the next-episode callback navigates.
 *
 * An item's seasons are lists of chapters, and a chapter is represented by
 * its URL (`None` when it has none).
 */
module Watch {
  import opened Wrappers
  import opened Episodes
  import Text
  import PlayerUtils

  type Seasons = seq<seq<Option<string>>>

  /** `seasons?.[s]?.chapters?.[c]` names an existing chapter. */
  predicate ChapterExists(seasons: Seasons, s: int, c: int) {
    0 <= s < |seasons| && 0 <= c < |seasons[s]|
  }

  /** The chapter count of each season, as used by the next-episode rule. */
  function Counts(seasons: Seasons): (r: seq<nat>)
    ensures |r| == |seasons| && forall i :: 0 <= i < |r| ==> r[i] == |seasons[i]|
  {
    seq(|seasons|, i requires 0 <= i < |seasons| => |seasons[i]|)
  }

  lemma ValidPositionIsExistingChapter(seasons: Seasons, p: Position)
    ensures ValidPosition(Counts(seasons), p) <==> ChapterExists(seasons, p.season, p.chapter)
  {
  }

  /** The content types served by the videos endpoint. */
  const VideoTypes: seq<string> := ["movie", "serie", "series", "pelicula", "anime", "dorama", "novela", "documental", "zona kids"]

  /** The detail request of an item, or the error shown instead of a request. */
  function Endpoint(itemId: Option<string>, itemType: Option<string>, useTrial: bool): (r: Result<string>)
    ensures (itemId.None? || itemId.value == "" || itemType.None? || itemType.value == "") ==>
      r == Err("Falta información para cargar el contenido.")
    ensures r.Ok? ==> itemId.Some? && itemType.Some?
    ensures r.Ok? && itemType.value == "channel" ==> r.value == "/api/channels/id/" + itemId.value
    ensures r.Ok? && itemType.value != "channel" ==>
      itemType.value in VideoTypes
      && r.value == "/api/videos/" + itemId.value + (if useTrial then "?useTrial=true" else "")
    ensures itemId.Some? && itemId.value != "" && itemType.Some? && itemType.value != "" ==>
      (r.Ok? <==> itemType.value == "channel" || itemType.value in VideoTypes)
  {
    if itemId.None? || itemId.value == "" || itemType.None? || itemType.value == "" then
      Err("Falta información para cargar el contenido.")
    else if itemType.value == "channel" then
      Ok("/api/channels/id/" + itemId.value)
    else if itemType.value in VideoTypes then
      Ok("/api/videos/" + itemId.value + (if useTrial then "?useTrial=true" else ""))
    else
      Err("Tipo de contenido \"" + itemType.value + "\" no reconocido.")
  }

  /** The router state the page is opened with. */
  datatype NavState = NavState(
    continueWatching: bool,
    seasonIndex: Option<int>,
    chapterIndex: Option<int>,
    startTime: Option<real>)

  /** The stored watch progress: each index is present only when it is a number. */
  datatype WatchProgress = WatchProgress(lastSeason: Option<int>, lastChapter: Option<int>, progress: Option<real>)

  /**
   * The outcome of chapter resolution: skipped for films and channels;
   * otherwise the chapter found and the new start time when one is set, or
   * an error.
   */
  datatype ChapterOutcome =
    | Skipped
    | Found(pos: Position, startTime: Option<real>)
    | NoChapter

  function NavPosition(nav: NavState): Option<Position> {
    if nav.seasonIndex.Some? && nav.chapterIndex.Some? then Some(Position(nav.seasonIndex.value, nav.chapterIndex.value))
    else None
  }

  predicate NavNamesChapter(seasons: Seasons, nav: NavState) {
    NavPosition(nav).Some? && ChapterExists(seasons, NavPosition(nav).value.season, NavPosition(nav).value.chapter)
  }

  predicate ProgressNamesChapter(seasons: Seasons, wp: Option<WatchProgress>) {
    && wp.Some? && wp.value.lastSeason.Some? && wp.value.lastChapter.Some?
    && wp.value.lastSeason.value >= 0 && wp.value.lastChapter.value >= 0
    && ChapterExists(seasons, wp.value.lastSeason.value, wp.value.lastChapter.value)
  }

  /**
   * The chapter to play, by priority: the continue-watching navigation
   * state; then, when continuing, the stored progress; then the plain
   * navigation state; then the first chapter of the first season.
   */
  function ChapterChoice(isFilmOrChannel: bool, seasons: Seasons, nav: NavState, wp: Option<WatchProgress>): ChapterOutcome {
    if isFilmOrChannel then Skipped
    else if nav.continueWatching && NavNamesChapter(seasons, nav) then
      Found(NavPosition(nav).value, nav.startTime)
    else if nav.continueWatching && ProgressNamesChapter(seasons, wp) then
      Found(Position(wp.value.lastSeason.value, wp.value.lastChapter.value), Some(wp.value.progress.GetOr(0.0)))
    else if NavNamesChapter(seasons, nav) then
      Found(NavPosition(nav).value, None)
    else if ChapterExists(seasons, 0, 0) then
      Found(Position(0, 0), None)
    else NoChapter
  }

  /** Whether the item skips chapter resolution: films by `tipo`, channels by the route type. */
  predicate IsFilmOrChannel(tipo: string, itemType: string) {
    tipo == "pelicula" || tipo == "movie" || itemType == "channel"
  }

  /** The chapter-resolution effect, with its step-by-step flags. */
  method ResolveChapter(tipo: string, itemType: string, seasons: Seasons, nav: NavState, wp: Option<WatchProgress>)
    returns (outcome: ChapterOutcome)
    ensures outcome == ChapterChoice(IsFilmOrChannel(tipo, itemType), seasons, nav, wp)
  {
    if tipo == "pelicula" || tipo == "movie" || itemType == "channel" {
      return Skipped;
    }
    var seasonIdx := 0;
    var chapterIdx := 0;
    var found := false;
    var startTime: Option<real> := None;

    if nav.continueWatching && nav.seasonIndex.Some? && nav.chapterIndex.Some? {
      seasonIdx := nav.seasonIndex.value;
      chapterIdx := nav.chapterIndex.value;
      if ChapterExists(seasons, seasonIdx, chapterIdx) {
        found := true;
        if nav.startTime.Some? {
          startTime := nav.startTime;
        }
      }
    }
    if !found && nav.continueWatching && wp.Some? {
      var w := wp.value;
      if w.lastSeason.Some? && w.lastChapter.Some? && w.lastSeason.value >= 0 && w.lastChapter.value >= 0 {
        if ChapterExists(seasons, w.lastSeason.value, w.lastChapter.value) {
          seasonIdx := w.lastSeason.value;
          chapterIdx := w.lastChapter.value;
          startTime := Some(w.progress.GetOr(0.0));
          found := true;
        }
      }
    }
    if !found && nav.seasonIndex.Some? && nav.chapterIndex.Some? {
      seasonIdx := nav.seasonIndex.value;
      chapterIdx := nav.chapterIndex.value;
      if ChapterExists(seasons, seasonIdx, chapterIdx) {
        found := true;
      }
    }
    if !found {
      if ChapterExists(seasons, 0, 0) {
        seasonIdx := 0;
        chapterIdx := 0;
        found := true;
      }
    }
    if found {
      outcome := Found(Position(seasonIdx, chapterIdx), startTime);
    } else {
      outcome := NoChapter;
    }
  }

  /**
   * A series always resolves to an existing chapter, and fails only when
   * neither the navigation state, the progress nor the first chapter of the
   * first season names one.
   */
  lemma ChoiceIsExistingChapter(isFilmOrChannel: bool, seasons: Seasons, nav: NavState, wp: Option<WatchProgress>)
    ensures var o := ChapterChoice(isFilmOrChannel, seasons, nav, wp);
      && (o.Skipped? <==> isFilmOrChannel)
      && (o.Found? ==> ChapterExists(seasons, o.pos.season, o.pos.chapter))
      && (o.NoChapter? <==> !isFilmOrChannel && !ChapterExists(seasons, 0, 0) && !NavNamesChapter(seasons, nav)
                            && !(nav.continueWatching && ProgressNamesChapter(seasons, wp)))
  {
  }

  /** A valid continue-watching state wins over the stored progress, whatever it says. */
  lemma NavigationBeatsProgress(seasons: Seasons, nav: NavState, wp1: Option<WatchProgress>, wp2: Option<WatchProgress>)
    requires nav.continueWatching && NavNamesChapter(seasons, nav)
    ensures ChapterChoice(false, seasons, nav, wp1) == ChapterChoice(false, seasons, nav, wp2)
    ensures ChapterChoice(false, seasons, nav, wp1) == Found(NavPosition(nav).value, nav.startTime)
  {
  }

  /** Stored progress is consulted only when continuing. */
  lemma ProgressIgnoredWithoutContinue(seasons: Seasons, nav: NavState, wp: Option<WatchProgress>)
    requires !nav.continueWatching
    ensures ChapterChoice(false, seasons, nav, wp) == ChapterChoice(false, seasons, nav, None)
  {
  }

  /**
   * What the URL effect does: wait, hand a URL to the player, show an error,
   * or let the exception thrown by getPlayableUrl escape the effect.
   */
  datatype UrlOutcome = Wait | PlayUrl(url: string) | UrlError(message: string) | Thrown(message: string)

  /** The URL chosen for playback passed through getPlayableUrl. */
  function Playable(u: string): (r: UrlOutcome)
    ensures r.PlayUrl? || r == Thrown("URL inválida o vacía")
    ensures r.PlayUrl? ==> r.url == Text.Trim(u) && r.url != "" && !Text.IsSpace(r.url[0]) && !Text.IsSpace(r.url[|r.url| - 1])
  {
    var res := PlayerUtils.GetPlayableUrl(PlayerUtils.Object(PlayerUtils.UrlString(u)), None);
    if res.Ok? then PlayUrl(res.value) else Thrown(res.error)
  }

  /** The item as normalised after loading. */
  datatype Item = Item(name: string, url: Option<string>, seasons: Seasons)

  /** The flattened chapter list of an item (`chapters` of the normalised data). */
  function AllChapters(seasons: Seasons): (r: seq<Option<string>>)
    ensures |r| == Sum(Counts(seasons))
  {
    if seasons == [] then []
    else
      assert Counts(seasons[..|seasons| - 1]) == Counts(seasons)[..|seasons| - 1];
      AllChapters(seasons[..|seasons| - 1]) + seasons[|seasons| - 1]
  }

  /** The URL-selection effect. */
  method SelectUrl(item: Option<Item>, loading: bool, current: Option<Position>) returns (outcome: UrlOutcome)
    ensures item.None? || loading ==> outcome == Wait
    ensures item.Some? && !loading && item.value.seasons != [] ==>
      && (current.None? ==> outcome == Wait)
      && (current.Some? && ChapterExists(item.value.seasons, current.value.season, current.value.chapter)
          && Truthy(item.value.seasons[current.value.season][current.value.chapter])
          ==> outcome == Playable(item.value.seasons[current.value.season][current.value.chapter].value))
      && (current.Some? && !(ChapterExists(item.value.seasons, current.value.season, current.value.chapter)
          && Truthy(item.value.seasons[current.value.season][current.value.chapter]))
          ==> outcome == UrlError("El capítulo seleccionado no tiene una URL válida."))
    ensures item.Some? && !loading && item.value.seasons == [] ==>
      && (Truthy(item.value.url) ==> outcome == Playable(item.value.url.value))
      && (!Truthy(item.value.url) ==> outcome == UrlError("No se encontró una fuente de video para \"" + item.value.name + "\"."))
    ensures outcome.PlayUrl? ==> outcome.url != "" && !Text.IsSpace(outcome.url[0]) && !Text.IsSpace(outcome.url[|outcome.url| - 1])
    ensures outcome.Thrown? ==> outcome == Thrown("URL inválida o vacía")
  {
    if item.None? || loading {
      return Wait;
    }
    var data := item.value;
    var chapters := AllChapters(data.seasons);
    var hasChapters := |chapters| > 0 || |data.seasons| > 0;
    var urlToPlay: Option<string> := None;
    if hasChapters {
      if current.Some? {
        var s, c := current.value.season, current.value.chapter;
        if ChapterExists(data.seasons, s, c) && Truthy(data.seasons[s][c]) {
          urlToPlay := data.seasons[s][c];
        } else {
          return UrlError("El capítulo seleccionado no tiene una URL válida.");
        }
      } else {
        return Wait;
      }
    } else {
      if Truthy(data.url) {
        urlToPlay := data.url;
      } else {
        return UrlError("No se encontró una fuente de video para \"" + data.name + "\".");
      }
    }
    outcome := Playable(urlToPlay.value);
  }

  /** The navigation made by handleNextEpisode. */
  datatype Navigation = Navigation(path: string, state: NavState)

  function NextEpisodeNavigation(itemType: string, itemId: string, p: Position): (r: Navigation)
    ensures r.state.continueWatching && NavPosition(r.state) == Some(p) && r.state.startTime.None?
  {
    Navigation("/watch/" + itemType + "/" + itemId, NavState(true, Some(p.season), Some(p.chapter), None))
  }

  /**
   * After an episode ends, the page reopened by handleNextEpisode plays the
   * chapter the next-episode rule chose, whenever that chapter exists.
   */
  lemma NextEpisodeIsPlayed(seasons: Seasons, current: Position, wp: Option<WatchProgress>, itemType: string, itemId: string)
    requires NextEpisode(Counts(seasons), current).Some?
    requires ValidPosition(Counts(seasons), NextEpisode(Counts(seasons), current).value)
    ensures var p := NextEpisode(Counts(seasons), current).value;
      ChapterChoice(false, seasons, NextEpisodeNavigation(itemType, itemId, p).state, wp) == Found(p, None)
  {
    var p := NextEpisode(Counts(seasons), current).value;
    ValidPositionIsExistingChapter(seasons, p);
  }

  /**
   * When the following season is empty, the next-episode rule still moves
   * to it, and the reopened page falls back to the first chapter of the
   * first season.
   */
  lemma NextIntoEmptySeasonRestarts(a: string)
    ensures var seasons: Seasons := [[Some(a)], []];
      && NextEpisode(Counts(seasons), Position(0, 0)) == Some(Position(1, 0))
      && ChapterChoice(false, seasons, NextEpisodeNavigation("serie", "x", Position(1, 0)).state, None) == Found(Position(0, 0), None)
  {
    var seasons: Seasons := [[Some(a)], []];
    assert Counts(seasons) == [1, 0];
  }
}
