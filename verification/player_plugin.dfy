/**
 * The Capacitor bridge to the native players (VideoPlayerPlugin.java):
 * argument defaults and validation of playVideo, the flattening of the
 * chapter list into four parallel lists with per-season chapter numbers, and
 * the control broadcast.
 */
module PlayerPlugin {
  import opened Wrappers

  /** One element of the `chapters` JSON array; a missing key is None. */
  datatype ChapterJson = ChapterJson(title: Option<string>, url: Option<string>, seasonNumber: Option<int>)

  /** The arguments of a playVideo call. */
  datatype PlayCall = PlayCall(url: Option<string>, title: Option<string>, startTime: Option<int>, chapters: Option<seq<ChapterJson>>)

  /** The four parallel lists attached to the launch intent. */
  datatype ChapterExtras = ChapterExtras(titles: seq<string>, urls: seq<string>, seasons: seq<int>, numbers: seq<int>)

  datatype Player = Vlc | Exo

  /** The launch intent: Exo fallback intents carry no chapters. */
  datatype LaunchIntent = LaunchIntent(player: Player, url: string, title: string, startTime: int, chapters: Option<ChapterExtras>)

  datatype PlayOutcome = Rejected(message: string) | Launched(intent: LaunchIntent)

  /** `optInt("seasonNumber", 1)`. */
  function SeasonOf(c: ChapterJson): int {
    c.seasonNumber.GetOr(1)
  }

  /** A chapter that `getString("title")` and `getString("url")` accept. */
  predicate Readable(c: ChapterJson) {
    c.title.Some? && c.url.Some?
  }

  /** The per-season numbering: 1 where the season differs from the previous entry's, else one more. */
  ghost predicate NumberedBySeason(seasons: seq<int>, numbers: seq<int>)
    requires |seasons| == |numbers|
  {
    && (|numbers| > 0 ==> numbers[0] == 1)
    && (forall i :: 0 < i < |numbers| ==>
          numbers[i] == if seasons[i] != seasons[i - 1] then 1 else numbers[i - 1] + 1)
  }

  /**
   * The four lists describe `chapters`: one entry per chapter, in order, with
   * its title, its url, its season (1 when it has none) and its number
   * within the run of chapters of that season.
   */
  ghost predicate Flattened(chapters: seq<ChapterJson>, e: ChapterExtras) {
    && |e.titles| == |e.urls| == |e.seasons| == |e.numbers| == |chapters|
    && (forall i :: 0 <= i < |chapters| ==>
          && Some(e.titles[i]) == chapters[i].title
          && Some(e.urls[i]) == chapters[i].url
          && e.seasons[i] == SeasonOf(chapters[i])
          && e.numbers[i] >= 1)
    && NumberedBySeason(e.seasons, e.numbers)
  }

  /**
   * The chapter loop of playVideo. A chapter missing its title or url throws
   * a JSONException that aborts the loop before any list is attached, so the
   * result is None; otherwise the four lists have one entry per chapter, in
   * order.
   */
  method FlattenChapters(chapters: seq<ChapterJson>) returns (r: Option<ChapterExtras>)
    ensures r.None? <==> exists i :: 0 <= i < |chapters| && !Readable(chapters[i])
    ensures r.Some? ==> Flattened(chapters, r.value)
  {
    var titles: seq<string> := [];
    var urls: seq<string> := [];
    var seasons: seq<int> := [];
    var numbers: seq<int> := [];
    var currentSeason := -1;
    var chapterCount := 0;
    var i := 0;
    while i < |chapters|
      invariant 0 <= i <= |chapters|
      invariant |titles| == |urls| == |seasons| == |numbers| == i
      invariant forall k :: 0 <= k < i ==> Readable(chapters[k])
      invariant forall k :: 0 <= k < i ==>
        && Some(titles[k]) == chapters[k].title && Some(urls[k]) == chapters[k].url
        && seasons[k] == SeasonOf(chapters[k]) && numbers[k] >= 1
      invariant NumberedBySeason(seasons, numbers)
      invariant i == 0 ==> currentSeason == -1 && chapterCount == 0
      invariant i > 0 ==> currentSeason == seasons[i - 1] && chapterCount == numbers[i - 1]
    {
      var c := chapters[i];
      var seasonNumber := SeasonOf(c);
      if seasonNumber != currentSeason {
        currentSeason := seasonNumber;
        chapterCount := 1;
      } else {
        chapterCount := chapterCount + 1;
      }
      if c.title.None? || c.url.None? {
        return None;
      }
      titles := titles + [c.title.value];
      urls := urls + [c.url.value];
      seasons := seasons + [seasonNumber];
      numbers := numbers + [chapterCount];
      i := i + 1;
    }
    r := Some(ChapterExtras(titles, urls, seasons, numbers));
  }

  /**
   * playVideo: a missing url is rejected with "URL is required"; title
   * defaults to "Video" and startTime to 0. The VLC activity is tried first;
   * if starting it throws, ExoPlayer is started with the same url, title and
   * start time; if that throws too, the call is rejected.
   */
  method PlayVideo(call: PlayCall, vlcStartFails: bool, exoStartFails: bool) returns (outcome: PlayOutcome)
    ensures call.url.None? ==> outcome == Rejected("URL is required")
    ensures call.url.Some? && !vlcStartFails ==>
      && outcome.Launched?
      && outcome.intent.player == Vlc
      && (call.chapters.None? ==> outcome.intent.chapters.None?)
      && (call.chapters.Some? ==>
            (outcome.intent.chapters.None? <==> exists i :: 0 <= i < |call.chapters.value| && !Readable(call.chapters.value[i])))
      && (call.chapters.Some? && outcome.intent.chapters.Some? ==>
            Flattened(call.chapters.value, outcome.intent.chapters.value))
    ensures call.url.Some? && vlcStartFails && !exoStartFails ==>
      outcome.Launched? && outcome.intent.player == Exo && outcome.intent.chapters.None?
    ensures call.url.Some? && vlcStartFails && exoStartFails ==> outcome.Rejected?
    ensures outcome.Launched? ==>
      && Some(outcome.intent.url) == call.url
      && outcome.intent.title == call.title.GetOr("Video")
      && outcome.intent.startTime == call.startTime.GetOr(0)
  {
    if call.url.None? {
      return Rejected("URL is required");
    }
    var url := call.url.value;
    var title := call.title.GetOr("Video");
    var startTime := call.startTime.GetOr(0);
    if !vlcStartFails {
      var extras: Option<ChapterExtras> := None;
      if call.chapters.Some? {
        extras := FlattenChapters(call.chapters.value);
      }
      return Launched(LaunchIntent(Vlc, url, title, startTime, extras));
    }
    if !exoStartFails {
      return Launched(LaunchIntent(Exo, url, title, startTime, None));
    }
    return Rejected("Error starting video player");
  }

  /** A VIDEO_PLAYER_CONTROL broadcast. */
  datatype ControlIntent = ControlIntent(action: string, position: Option<int>)

  /** sendPlayerControl: the position extra is attached only when it is positive. */
  function SendPlayerControl(action: string, position: int): (i: ControlIntent)
    ensures i.action == action
    ensures i.position.Some? <==> position > 0
    ensures i.position.Some? ==> i.position.value == position
  {
    ControlIntent(action, if position > 0 then Some(position) else None)
  }

  /** The four lists are determined by the chapters: two flattenings of the same chapters are equal. */
  lemma {:induction false} FlattenedUnique(chapters: seq<ChapterJson>, e1: ChapterExtras, e2: ChapterExtras)
    requires Flattened(chapters, e1) && Flattened(chapters, e2)
    ensures e1 == e2
  {
    forall i | 0 <= i < |chapters|
      ensures e1.numbers[i] == e2.numbers[i]
    {
      NumbersAgree(e1.seasons, e1.numbers, e2.numbers, i);
    }
    assert e1.titles == e2.titles;
    assert e1.urls == e2.urls;
    assert e1.seasons == e2.seasons;
    assert e1.numbers == e2.numbers;
  }

  lemma {:induction false} NumbersAgree(seasons: seq<int>, n1: seq<int>, n2: seq<int>, i: nat)
    requires |seasons| == |n1| == |n2| && i < |seasons|
    requires NumberedBySeason(seasons, n1) && NumberedBySeason(seasons, n2)
    ensures n1[i] == n2[i]
  {
    if i > 0 {
      NumbersAgree(seasons, n1, n2, i - 1);
    }
  }
}
