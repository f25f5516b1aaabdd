/**
 * The progress and next-episode logic of the React player component
 * (src/components/VideoPlayer.jsx): the native-player progress listener,
 * the start of native playback on Android, the background seek events and
 * the HTML5 `ended` handler with its once-per-source navigation flag.
 *
 * The component is a class whose fields are its props and refs; re-rendering
 * with new props is the method `Rerender`. Progress saves and calls of the
 * `onNextEpisode` prop are recorded in the ghost logs `saves` and
 * `navigations`.
 */
module VideoPlayer {
  import opened Wrappers
  import opened Episodes
  import VideoProgress

  /** The seconds of a background seek event: `detail.seconds`, or 10 when it is missing or zero. */
  function BackgroundSeekSeconds(detail: Option<int>): (r: int)
    ensures r != 0
    ensures detail.Some? && detail.value != 0 ==> r == detail.value
    ensures detail.None? || detail.value == 0 ==> r == 10
  {
    if detail.Some? && detail.value != 0 then detail.value else 10
  }

  /** The arguments of the native playVideo call; `chapterCount` is the length of the flattened chapter list. */
  datatype PlayRequest = PlayRequest(url: string, title: string, startTime: real, chapterCount: nat)

  /** One call of the progress service: the item id (possibly absent) and the fields sent. */
  datatype Save = Save(itemId: Option<string>, args: VideoProgress.SaveArgs)

  function SeasonIndexOf(chapter: Option<Position>): Option<int> {
    if chapter.Some? then Some(chapter.value.season) else None
  }

  function ChapterIndexOf(chapter: Option<Position>): Option<int> {
    if chapter.Some? then Some(chapter.value.chapter) else None
  }

  class VideoPlayerView {
    var url: Option<string>
    var itemId: Option<string>
    var chapter: Option<Position>
    /** The chapter count of each season, when the item has seasons. */
    var seasons: Option<seq<nat>>
    var hasNextHandler: bool
    /** The native progress listener is installed only on android-vlc with an item id. */
    var vlcListening: bool
    /** hasNavigatedToNextEpisodeRef */
    var hasNavigated: bool
    var currentTime: real
    var lastSavedTime: real

    ghost var saves: seq<Save>
    ghost var navigations: seq<Position>
    ghost var plays: seq<PlayRequest>
    /** Navigations made by `OnEnded` since the source last changed. */
    ghost var endedNavigations: nat

    ghost predicate Valid()
      reads this
    {
      && endedNavigations <= 1
      && (hasNavigated <==> endedNavigations == 1)
    }

    /** Mounting: on android-vlc with an item id, a positive start time becomes the current and last saved time. */
    constructor (androidVlc: bool, url: Option<string>, itemId: Option<string>, chapter: Option<Position>,
                 seasons: Option<seq<nat>>, hasNextHandler: bool, startTime: real)
      ensures Valid()
      ensures this.url == url && this.itemId == itemId && this.chapter == chapter
      ensures this.seasons == seasons && this.hasNextHandler == hasNextHandler
      ensures vlcListening == (androidVlc && Truthy(itemId))
      ensures !hasNavigated
      ensures vlcListening && startTime > 0.0 ==> currentTime == startTime && lastSavedTime == startTime
      ensures !(vlcListening && startTime > 0.0) ==> currentTime == 0.0 && lastSavedTime == 0.0
      ensures saves == [] && navigations == [] && plays == []
    {
      this.url := url;
      this.itemId := itemId;
      this.chapter := chapter;
      this.seasons := seasons;
      this.hasNextHandler := hasNextHandler;
      vlcListening := androidVlc && Truthy(itemId);
      hasNavigated := false;
      if androidVlc && Truthy(itemId) && startTime > 0.0 {
        currentTime := startTime;
        lastSavedTime := startTime;
      } else {
        currentTime := 0.0;
        lastSavedTime := 0.0;
      }
      saves := [];
      navigations := [];
      plays := [];
      endedNavigations := 0;
    }

    /**
     * New props. The navigation flag is cleared exactly when the URL, the
     * item id or the chapter index changed.
     */
    method Rerender(androidVlc: bool, url': Option<string>, itemId': Option<string>, chapter': Option<Position>,
                    seasons': Option<seq<nat>>, hasNextHandler': bool)
      requires Valid()
      modifies this`url, this`itemId, this`chapter, this`seasons, this`hasNextHandler, this`vlcListening
      modifies this`hasNavigated, this`endedNavigations
      ensures Valid()
      ensures url == url' && itemId == itemId' && chapter == chapter' && seasons == seasons'
      ensures hasNextHandler == hasNextHandler' && vlcListening == (androidVlc && Truthy(itemId'))
      ensures hasNavigated == (old(hasNavigated) && url' == old(url) && itemId' == old(itemId)
                               && ChapterIndexOf(chapter') == ChapterIndexOf(old(chapter)))
    {
      var sameSource := url' == url && itemId' == itemId && ChapterIndexOf(chapter') == ChapterIndexOf(chapter);
      if !sameSource {
        hasNavigated := false;
        endedNavigations := 0;
      }
      url := url';
      itemId := itemId';
      chapter := chapter';
      seasons := seasons';
      hasNextHandler := hasNextHandler';
      vlcListening := androidVlc && Truthy(itemId');
    }

    /**
     * saveProgress of the native listener: sends only a positive time for a
     * present item, with the current season and chapter indices. The service
     * never throws, so the last saved time is always recorded after a send.
     */
    method SaveProgress(t: real, completed: bool)
      modifies this`saves, this`lastSavedTime
      ensures t > 0.0 && Truthy(itemId) ==>
        saves == old(saves) + [Save(itemId, VideoProgress.SaveArgs(Some(t), ChapterIndexOf(chapter), SeasonIndexOf(chapter), Some(completed), None))]
        && lastSavedTime == t
      ensures !(t > 0.0 && Truthy(itemId)) ==> saves == old(saves) && lastSavedTime == old(lastSavedTime)
    {
      if t > 0.0 && Truthy(itemId) {
        saves := saves + [Save(itemId, VideoProgress.SaveArgs(Some(t), ChapterIndexOf(chapter), SeasonIndexOf(chapter), Some(completed), None))];
        lastSavedTime := t;
      }
    }

    /** Calls onNextEpisode with the next position, when there is one. */
    method NavigateNext() returns (moved: bool)
      requires hasNextHandler && seasons.Some? && chapter.Some?
      modifies this`navigations
      ensures var n := NextEpisode(seasons.value, chapter.value);
        && moved == n.Some?
        && navigations == old(navigations) + (if n.Some? then [n.value] else [])
    {
      var n := NextEpisode(seasons.value, chapter.value);
      moved := n.Some?;
      if n.Some? {
        navigations := navigations + [n.value];
      }
    }

    /**
     * The native `timeupdate` event. A missing time counts as 0 and a
     * missing flag as false; a completed event saves with completed=true and
     * then moves to the next episode. This path does not consult the
     * navigation flag.
     */
    method HandleTimeUpdate(time: Option<real>, completed: Option<bool>)
      requires Valid()
      modifies this`saves, this`lastSavedTime, this`currentTime, this`navigations
      ensures Valid()
      ensures !vlcListening ==> currentTime == old(currentTime) && lastSavedTime == old(lastSavedTime)
                                && saves == old(saves) && navigations == old(navigations)
      ensures vlcListening ==> currentTime == time.GetOr(0.0)
      ensures vlcListening && !completed.GetOr(false) ==>
        lastSavedTime == time.GetOr(0.0) && saves == old(saves) && navigations == old(navigations)
      ensures vlcListening && completed.GetOr(false) ==>
        && lastSavedTime == time.GetOr(0.0)
        && saves == old(saves) + (if time.GetOr(0.0) > 0.0 && Truthy(itemId)
                                  then [Save(itemId, VideoProgress.SaveArgs(Some(time.GetOr(0.0)), ChapterIndexOf(chapter), SeasonIndexOf(chapter), Some(true), None))]
                                  else [])
        && navigations == old(navigations) +
             (if hasNextHandler && seasons.Some? && chapter.Some? && NextEpisode(seasons.value, chapter.value).Some?
              then [NextEpisode(seasons.value, chapter.value).value] else [])
    {
      if !vlcListening {
        return;
      }
      var t := time.GetOr(0.0);
      currentTime := t;
      lastSavedTime := t;
      if completed.GetOr(false) {
        SaveProgress(t, true);
        if hasNextHandler && seasons.Some? && chapter.Some? {
          var _ := NavigateNext();
        }
      }
    }

    /**
     * The HTML5 `ended` event: ignored once a navigation has been made for
     * the current source; otherwise moves to the next episode and raises the
     * flag only when it actually moved.
     */
    method OnEnded()
      requires Valid()
      modifies this`hasNavigated, this`navigations, this`endedNavigations
      ensures Valid()
      ensures old(hasNavigated) ==> hasNavigated && navigations == old(navigations)
      ensures !old(hasNavigated) ==>
        var moves := hasNextHandler && seasons.Some? && chapter.Some? && NextEpisode(seasons.value, chapter.value).Some?;
        && hasNavigated == moves
        && navigations == old(navigations) + (if moves then [NextEpisode(seasons.value, chapter.value).value] else [])
    {
      if hasNavigated {
        return;
      }
      if hasNextHandler && seasons.Some? && chapter.Some? {
        var moved := NavigateNext();
        if moved {
          hasNavigated := true;
          endedNavigations := 1;
        }
      }
    }

    /**
     * Starts native playback on Android: nothing while the page is
     * unmounting; otherwise, on android-vlc with a URL and autoplay, plays
     * with the title (default "Video"), the start time (default 0) and every
     * chapter of every season, and when the player started, saves the start
     * position with the current indices.
     */
    method StartAndroidPlayback(isUnmounting: bool, androidVlc: bool, autoplay: bool,
                                title: Option<string>, startTime: Option<real>, started: bool)
      returns (request: Option<PlayRequest>)
      modifies this`plays, this`saves, this`lastSavedTime
      ensures isUnmounting || !androidVlc || !Truthy(url) || !autoplay ==>
        request.None? && plays == old(plays) && saves == old(saves) && lastSavedTime == old(lastSavedTime)
      ensures request.Some? ==>
        && request.value.url == url.value
        && request.value.title == (if Truthy(title) then title.value else "Video")
        && request.value.startTime == startTime.GetOr(0.0)
        && request.value.chapterCount == (if seasons.Some? then Sum(seasons.value) else 0)
        && plays == old(plays) + [request.value]
      ensures request.Some? && started ==>
        && saves == old(saves) + [Save(itemId, VideoProgress.SaveArgs(Some(startTime.GetOr(0.0)), ChapterIndexOf(chapter), SeasonIndexOf(chapter), Some(false), None))]
        && lastSavedTime == startTime.GetOr(0.0)
      ensures request.Some? && !started ==> saves == old(saves) && lastSavedTime == old(lastSavedTime)
    {
      request := None;
      if isUnmounting {
        return;
      }
      if androidVlc && Truthy(url) && autoplay {
        var req := PlayRequest(url.value, if Truthy(title) then title.value else "Video",
                               startTime.GetOr(0.0), if seasons.Some? then Sum(seasons.value) else 0);
        request := Some(req);
        plays := plays + [req];
        if started {
          var initial := startTime.GetOr(0.0);
          saves := saves + [Save(itemId, VideoProgress.SaveArgs(Some(initial), ChapterIndexOf(chapter), SeasonIndexOf(chapter), Some(false), None))];
          lastSavedTime := initial;
        }
      }
    }
  }

  /** Two `ended` events for the same source lead to at most one navigation. */
  method EndedTwice(v: VideoPlayerView)
    requires v.Valid()
    modifies v
    ensures v.Valid()
    ensures |v.navigations| <= |old(v.navigations)| + 1
  {
    v.OnEnded();
    v.OnEnded();
  }
}
