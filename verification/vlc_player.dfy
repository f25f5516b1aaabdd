/**
 * The LibVLC playback activity (VLCPlayerActivity.java): lifecycle, engine
 * events, progress broadcasts, chapter navigation and the broadcast
 * receivers that remote-control it.
 *
 * The engine is identified by a player number; every call the activity makes
 * on it is appended to the ghost log `calls`, and every VIDEO_PROGRESS_UPDATE
 * broadcast to the ghost log `progress`. What the engine reports
 * (getTime, isPlaying), the wall clock and whether the activity is in
 * picture-in-picture mode are parameters of the methods that query them.
 */
module VlcPlayer {
  import opened Wrappers
  import opened Numbers
  import VlcInstance

  /** PROGRESS_THROTTLE_MS: minimum gap between two TimeChanged progress sends. */
  const ProgressThrottleMs: int := 10000

  /** The aspect-ratio modes cycled by the aspect button, in order. */
  const AspectRatioModes: seq<string> := ["Ajustar", "Rellenar", "16:9", "4:3"]

  datatype EngineCall =
    | AttachViews(player: nat)
    | FitScreen(player: nat)
    | SetMedia(player: nat, url: string)
    | Play(player: nat)
    | Pause(player: nat)
    | Stop(player: nat)
    | DetachViews(player: nat)
    | Release(player: nat)
    | SetTime(player: nat, ms: int)
    | SetAspect(player: nat, mode: string)

  /** One VIDEO_PROGRESS_UPDATE broadcast: whole seconds and the completed flag. */
  datatype ProgressUpdate = ProgressUpdate(currentTime: int, completed: bool)

  /** The extras of the launching intent that the activity reads. */
  datatype LaunchIntent = LaunchIntent(
    forceClose: bool,
    videoUrl: Option<string>,
    startTime: int,
    chapterUrls: Option<seq<string>>)

  /** The `currentTime` extra of a progress broadcast: milliseconds / 1000 with Java's truncating division. */
  function ProgressSeconds(ms: int): (s: int)
    ensures ms >= 0 ==> 0 <= s * 1000 <= ms < s * 1000 + 1000
    ensures ms < 0 ==> s * 1000 - 1000 < ms <= s * 1000 <= 0
  {
    if ms >= 0 then ms / 1000 else -((-ms) / 1000)
  }

  /** Java's List.indexOf: the first position holding `target`, or -1. */
  function IndexOf(urls: seq<string>, target: Option<string>): (r: int)
    ensures -1 <= r < |urls|
    ensures r >= 0 ==> Some(urls[r]) == target && forall j :: 0 <= j < r ==> Some(urls[j]) != target
    ensures r == -1 ==> forall j :: 0 <= j < |urls| ==> Some(urls[j]) != target
  {
    if urls == [] then -1
    else if Some(urls[0]) == target then 0
    else
      var k := IndexOf(urls[1..], target);
      if k == -1 then -1 else k + 1
  }

  /** The linear search of playNextEpisode: the first chapter whose URL equals the current one. */
  method FindChapter(urls: seq<string>, current: Option<string>) returns (index: int)
    ensures index == IndexOf(urls, current)
  {
    index := -1;
    var i := 0;
    while i < |urls|
      invariant 0 <= i <= |urls|
      invariant forall j :: 0 <= j < i ==> Some(urls[j]) != current
    {
      if Some(urls[i]) == current {
        index := i;
        break;
      }
      i := i + 1;
    }
  }

  /** No player is released twice in a call log. */
  ghost predicate ReleasedAtMostOnce(calls: seq<EngineCall>) {
    forall i, j :: 0 <= i < j < |calls| && calls[i].Release? && calls[j].Release? ==> calls[i].player != calls[j].player
  }

  /** Calls that release nothing keep every release unique. */
  lemma AppendWithoutRelease(calls: seq<EngineCall>, extra: seq<EngineCall>)
    requires ReleasedAtMostOnce(calls)
    requires forall k :: 0 <= k < |extra| ==> !extra[k].Release?
    ensures ReleasedAtMostOnce(calls + extra)
  {
    var all := calls + extra;
    forall i, j | 0 <= i < j < |all| && all[i].Release? && all[j].Release?
      ensures all[i].player != all[j].player
    {
      if j < |calls| {
        assert all[i] == calls[i] && all[j] == calls[j];
      } else {
        assert false;
      }
    }
  }

  /** Every call names a player below `bound`. */
  ghost predicate CallsBelow(calls: seq<EngineCall>, bound: nat) {
    forall i :: 0 <= i < |calls| ==> calls[i].player < bound
  }

  lemma BoundedAppend(calls: seq<EngineCall>, extra: seq<EngineCall>, before: nat, bound: nat)
    requires before <= bound && CallsBelow(calls, before)
    requires CallsBelow(extra, bound)
    ensures CallsBelow(calls + extra, bound)
  {
    var all := calls + extra;
    forall i | 0 <= i < |all| ensures all[i].player < bound {
      if i < |calls| { assert all[i] == calls[i]; } else { assert all[i] == extra[i - |calls|]; }
    }
  }

  /**
   * The engine log: every call names a player already created, no player
   * is released twice, and the held player has not been released.
   */
  ghost predicate LogValid(calls: seq<EngineCall>, mediaPlayer: Option<nat>, nextPlayer: nat) {
    && CallsBelow(calls, nextPlayer)
    && (mediaPlayer.Some? ==>
          mediaPlayer.value < nextPlayer && forall i :: 0 <= i < |calls| ==> calls[i] != Release(mediaPlayer.value))
    && ReleasedAtMostOnce(calls)
  }

  /** TimeChanged sends: the last one is lastProgressSent (0 before any), and consecutive ones are more than 10 s apart. */
  ghost predicate SendsValid(sends: seq<int>, lastProgressSent: int) {
    && (sends == [] ==> lastProgressSent == 0)
    && (sends != [] ==> lastProgressSent == sends[|sends| - 1])
    && (forall i :: 0 < i < |sends| ==> sends[i] - sends[i - 1] > ProgressThrottleMs)
  }

  /** Creating a new player and sending it calls keeps the log valid. */
  lemma NewPlayerLog(calls: seq<EngineCall>, mediaPlayer: Option<nat>, nextPlayer: nat, extra: seq<EngineCall>)
    requires LogValid(calls, mediaPlayer, nextPlayer)
    requires forall k :: 0 <= k < |extra| ==> extra[k].player == nextPlayer && !extra[k].Release?
    ensures LogValid(calls + extra, Some(nextPlayer), nextPlayer + 1)
  {
    AppendWithoutRelease(calls, extra);
    BoundedAppend(calls, extra, nextPlayer, nextPlayer + 1);
    var all := calls + extra;
    forall i | 0 <= i < |all| ensures all[i] != Release(nextPlayer) {
      if i < |calls| { assert all[i] == calls[i]; } else { assert all[i] == extra[i - |calls|]; }
    }
  }

  /** Starting the next player on a URL keeps the log valid. */
  lemma StartLog(calls: seq<EngineCall>, mediaPlayer: Option<nat>, nextPlayer: nat, url: string)
    requires LogValid(calls, mediaPlayer, nextPlayer)
    ensures LogValid(calls + StartCalls(nextPlayer, url), Some(nextPlayer), nextPlayer + 1)
  {
    NewPlayerLog(calls, mediaPlayer, nextPlayer, StartCalls(nextPlayer, url));
  }

  /** Releasing the held player drops it and keeps the log valid. */
  lemma ReleaseLog(calls: seq<EngineCall>, p: nat, nextPlayer: nat)
    requires LogValid(calls, Some(p), nextPlayer)
    ensures LogValid(calls + [Stop(p), DetachViews(p), Release(p)], None, nextPlayer)
  {
    AppendRelease(calls, p);
    BoundedAppend(calls, [Stop(p), DetachViews(p), Release(p)], nextPlayer, nextPlayer);
  }

  /** Releasing a player not released before keeps every release unique. */
  lemma AppendRelease(calls: seq<EngineCall>, p: nat)
    requires ReleasedAtMostOnce(calls)
    requires forall i :: 0 <= i < |calls| ==> calls[i] != Release(p)
    ensures ReleasedAtMostOnce(calls + [Stop(p), DetachViews(p), Release(p)])
  {
    var all := calls + [Stop(p), DetachViews(p), Release(p)];
    forall i, j | 0 <= i < j < |all| && all[i].Release? && all[j].Release?
      ensures all[i].player != all[j].player
    {
      assert i < |calls| && all[i] == calls[i];
      if j < |calls| {
        assert all[j] == calls[j];
      } else {
        assert all[j] == Release(p);
      }
    }
  }

  /**
   * The calls initializePlayer makes on a new player: attach the video
   * views, clear the aspect ratio and scale to fit the screen, load the
   * URL, play.
   */
  ghost function StartCalls(p: nat, url: string): seq<EngineCall> {
    [AttachViews(p), FitScreen(p), SetMedia(p, url), Play(p)]
  }

  /**
   * The chapter playNextEpisode moves to: the one after the first chapter
   * holding the current URL, when there is such a chapter and it is not the
   * last one.
   */
  function NextChapterUrl(urls: Option<seq<string>>, current: Option<string>): (r: Option<string>)
    ensures r.None? ==> urls.None? || forall i :: 0 <= i < |urls.value| - 1 ==> Some(urls.value[i]) != current
    ensures r.Some? ==> urls.Some? && exists i :: FirstMatchBefore(urls.value, current, i) && r.value == urls.value[i + 1]
  {
    if urls.None? then None
    else
      var k := IndexOf(urls.value, current);
      if 0 <= k < |urls.value| - 1 then
        assert FirstMatchBefore(urls.value, current, k);
        Some(urls.value[k + 1])
      else None
  }

  /** Position `i` holds the first occurrence of `current`, and a chapter follows it. */
  predicate FirstMatchBefore(urls: seq<string>, current: Option<string>, i: int) {
    && 0 <= i < |urls| - 1 && Some(urls[i]) == current
    && forall j :: 0 <= j < i ==> Some(urls[j]) != current
  }

  /** The engine calls releasePlayer makes on the player it holds. */
  ghost function ReleaseCalls(mp: Option<nat>): seq<EngineCall> {
    if mp.Some? then [Stop(mp.value), DetachViews(mp.value), Release(mp.value)] else []
  }

  /** The final progress broadcast of releasePlayer, sent only for a positive position. */
  ghost function ReleaseProgress(mp: Option<nat>, time: int): seq<ProgressUpdate> {
    if mp.Some? && time > 0 then [ProgressUpdate(ProgressSeconds(time), false)] else []
  }

  class VlcPlayerActivity {
    const library: VlcInstance.VlcLibraryHolder
    var mediaPlayer: Option<nat>
    var nextPlayer: nat
    var currentVideoUrl: Option<string>
    var lastPosition: int
    var isScreenLocked: bool
    var isSeekPending: bool
    var currentAspectRatioIndex: nat
    var chapterUrls: Option<seq<string>>
    var lastProgressSent: int
    var controlReceiverRegistered: bool
    var finishReceiverRegistered: bool
    var controlsVisible: bool
    /** finish() has been requested. */
    var finishing: bool
    ghost var calls: seq<EngineCall>
    ghost var progress: seq<ProgressUpdate>
    /** Start-position seeks performed on Playing. */
    ghost var startSeeks: nat
    /** Clock readings at which TimeChanged sent progress. */
    ghost var timeChangedSends: seq<int>

    ghost predicate Valid()
      reads this, library
    {
      && library.Valid()
      && LogValid(calls, mediaPlayer, nextPlayer)
      && currentAspectRatioIndex < |AspectRatioModes|
      && startSeeks <= 1 && (isSeekPending ==> startSeeks == 0)
      && SendsValid(timeChangedSends, lastProgressSent)
    }

    /** onCreate: FORCE_CLOSE finishes at once; otherwise the URL, start time and chapter list are read. */
    constructor (intent: LaunchIntent, lib: VlcInstance.VlcLibraryHolder)
      requires lib.Valid()
      ensures Valid() && library == lib
      ensures mediaPlayer == None && calls == [] && progress == [] && startSeeks == 0
      ensures finishing == intent.forceClose
      ensures intent.forceClose ==> currentVideoUrl == None && chapterUrls == None && !isSeekPending
      ensures !intent.forceClose ==>
        && currentVideoUrl == intent.videoUrl
        && lastPosition == intent.startTime
        && isSeekPending == (intent.startTime > 0)
        && chapterUrls == intent.chapterUrls
      ensures !controlReceiverRegistered && !finishReceiverRegistered
    {
      library := lib;
      mediaPlayer := None;
      nextPlayer := 0;
      lastPosition := 0;
      isScreenLocked := false;
      isSeekPending := false;
      currentAspectRatioIndex := 0;
      lastProgressSent := 0;
      controlReceiverRegistered := false;
      finishReceiverRegistered := false;
      controlsVisible := true;
      calls := [];
      progress := [];
      startSeeks := 0;
      timeChangedSends := [];
      if intent.forceClose {
        finishing := true;
        currentVideoUrl := None;
        chapterUrls := None;
      } else {
        finishing := false;
        currentVideoUrl := intent.videoUrl;
        lastPosition := intent.startTime;
        if intent.startTime > 0 {
          isSeekPending := true;
        }
        chapterUrls := intent.chapterUrls;
      }
    }

    /** onNewIntent: a FORCE_CLOSE extra finishes the activity; nothing else changes. */
    method OnNewIntent(forceClose: bool)
      requires Valid()
      modifies this`finishing
      ensures Valid()
      ensures finishing == (old(finishing) || forceClose)
      ensures mediaPlayer == old(mediaPlayer) && calls == old(calls) && progress == old(progress)
    {
      if forceClose {
        finishing := true;
      }
    }

    /** initializePlayer: nothing without a URL; otherwise a new player on the shared library, loaded and playing. */
    method InitializePlayer()
      requires Valid()
      modifies this`mediaPlayer, this`nextPlayer, this`currentAspectRatioIndex, this`calls, library
      ensures Valid()
      ensures currentVideoUrl == old(currentVideoUrl) && chapterUrls == old(chapterUrls)
      ensures lastPosition == old(lastPosition) && isSeekPending == old(isSeekPending)
      ensures progress == old(progress) && startSeeks == old(startSeeks)
      ensures lastProgressSent == old(lastProgressSent) && timeChangedSends == old(timeChangedSends)
      ensures finishing == old(finishing) && isScreenLocked == old(isScreenLocked)
      ensures controlReceiverRegistered == old(controlReceiverRegistered)
      ensures finishReceiverRegistered == old(finishReceiverRegistered)
      ensures controlsVisible == old(controlsVisible)
      ensures currentVideoUrl.None? ==>
        mediaPlayer == old(mediaPlayer) && calls == old(calls) && currentAspectRatioIndex == old(currentAspectRatioIndex)
      ensures currentVideoUrl.Some? ==>
        && mediaPlayer == Some(old(nextPlayer))
        && calls == old(calls) + StartCalls(old(nextPlayer), currentVideoUrl.value)
        && currentAspectRatioIndex == 0
        && library.libVlc.Some?
    {
      if currentVideoUrl.None? {
        return;
      }
      var lib := library.GetInstance();
      var player := nextPlayer;
      StartLog(calls, mediaPlayer, nextPlayer, currentVideoUrl.value);
      nextPlayer := nextPlayer + 1;
      mediaPlayer := Some(player);
      currentAspectRatioIndex := 0;
      calls := calls + StartCalls(player, currentVideoUrl.value);
    }

    /**
     * releasePlayer: with a player, capture its position, send a final
     * progress update when that position is positive, then stop, detach and
     * release it and drop the handle; without one, nothing happens.
     */
    method ReleasePlayer(time: int)
      requires Valid()
      modifies this`mediaPlayer, this`lastPosition, this`progress, this`calls
      ensures Valid()
      ensures mediaPlayer == None
      ensures calls == old(calls) + ReleaseCalls(old(mediaPlayer))
      ensures progress == old(progress) + ReleaseProgress(old(mediaPlayer), time)
      ensures lastPosition == if old(mediaPlayer).Some? then time else old(lastPosition)
      ensures nextPlayer == old(nextPlayer) && currentVideoUrl == old(currentVideoUrl) && chapterUrls == old(chapterUrls)
      ensures isSeekPending == old(isSeekPending) && startSeeks == old(startSeeks)
      ensures lastProgressSent == old(lastProgressSent) && timeChangedSends == old(timeChangedSends)
      ensures currentAspectRatioIndex == old(currentAspectRatioIndex) && finishing == old(finishing)
      ensures isScreenLocked == old(isScreenLocked) && controlsVisible == old(controlsVisible)
      ensures controlReceiverRegistered == old(controlReceiverRegistered)
      ensures finishReceiverRegistered == old(finishReceiverRegistered)
    {
      if mediaPlayer.Some? {
        var player := mediaPlayer.value;
        lastPosition := time;
        if lastPosition > 0 {
          progress := progress + [ProgressUpdate(ProgressSeconds(lastPosition), false)];
        }
        ReleaseLog(calls, player, nextPlayer);
        calls := calls + [Stop(player), DetachViews(player), Release(player)];
        mediaPlayer := None;
      }
    }

    /** onStart: initialize the player and register both receivers. */
    method OnStart()
      requires Valid()
      modifies this`mediaPlayer, this`nextPlayer, this`currentAspectRatioIndex, this`calls, library
      modifies this`controlReceiverRegistered, this`finishReceiverRegistered
      ensures Valid()
      ensures controlReceiverRegistered && finishReceiverRegistered
      ensures currentVideoUrl.Some? ==>
        && mediaPlayer == Some(old(nextPlayer))
        && calls == old(calls) + StartCalls(old(nextPlayer), currentVideoUrl.value)
        && currentAspectRatioIndex == 0
      ensures currentVideoUrl.None? ==>
        mediaPlayer == old(mediaPlayer) && calls == old(calls) && currentAspectRatioIndex == old(currentAspectRatioIndex)
      ensures progress == old(progress) && lastPosition == old(lastPosition) && isSeekPending == old(isSeekPending)
    {
      InitializePlayer();
      controlReceiverRegistered := true;
      finishReceiverRegistered := true;
    }

    /** onUserLeaveHint: asks for picture-in-picture only while a player is playing. */
    method OnUserLeaveHint(playing: bool) returns (enterPip: bool)
      ensures enterPip == (mediaPlayer.Some? && playing)
    {
      enterPip := mediaPlayer.Some? && playing;
    }

    /** onPictureInPictureModeChanged: only the controls' visibility changes. */
    method OnPictureInPictureModeChanged(inPip: bool)
      modifies this`controlsVisible
      ensures controlsVisible == !inPip
    {
      controlsVisible := !inPip;
    }

    /** onStop: unregister the receivers; release the player unless in picture-in-picture. */
    method OnStop(inPip: bool, time: int)
      requires Valid()
      modifies this`controlReceiverRegistered, this`finishReceiverRegistered
      modifies this`mediaPlayer, this`lastPosition, this`progress, this`calls
      ensures Valid()
      ensures !controlReceiverRegistered && !finishReceiverRegistered
      ensures inPip ==>
        mediaPlayer == old(mediaPlayer) && calls == old(calls) && progress == old(progress) && lastPosition == old(lastPosition)
      ensures !inPip ==>
        && mediaPlayer == None
        && calls == old(calls) + ReleaseCalls(old(mediaPlayer))
        && progress == old(progress) + ReleaseProgress(old(mediaPlayer), time)
        && lastPosition == if old(mediaPlayer).Some? then time else old(lastPosition)
    {
      controlReceiverRegistered := false;
      finishReceiverRegistered := false;
      if !inPip {
        ReleasePlayer(time);
      }
    }

    /**
     * onDestroy: in picture-in-picture with a playing player, stop it and send
     * its position first; then release the player.
     */
    method OnDestroy(inPip: bool, playing: bool, time: int)
      requires Valid()
      modifies this`mediaPlayer, this`lastPosition, this`progress, this`calls
      ensures Valid()
      ensures mediaPlayer == None
      ensures lastPosition == if old(mediaPlayer).Some? then time else old(lastPosition)
      ensures inPip && playing && old(mediaPlayer).Some? ==>
        && calls == old(calls) + [Stop(old(mediaPlayer).value)] + ReleaseCalls(old(mediaPlayer))
        && progress == old(progress) + [ProgressUpdate(ProgressSeconds(time), false)] + ReleaseProgress(old(mediaPlayer), time)
      ensures !(inPip && playing && old(mediaPlayer).Some?) ==>
        && calls == old(calls) + ReleaseCalls(old(mediaPlayer))
        && progress == old(progress) + ReleaseProgress(old(mediaPlayer), time)
    {
      if inPip && mediaPlayer.Some? && playing {
        calls := calls + [Stop(mediaPlayer.value)];
        progress := progress + [ProgressUpdate(ProgressSeconds(time), false)];
      }
      ReleasePlayer(time);
    }

    /** The Playing event: the pending start seek, in milliseconds, fires once. */
    method OnPlaying()
      requires Valid() && mediaPlayer.Some?
      modifies this`calls, this`isSeekPending, this`startSeeks
      ensures Valid()
      ensures !isSeekPending
      ensures old(isSeekPending) ==>
        calls == old(calls) + [SetTime(old(mediaPlayer).value, old(lastPosition) * 1000)] && startSeeks == 1
      ensures !old(isSeekPending) ==> calls == old(calls) && startSeeks == old(startSeeks)
      ensures mediaPlayer == old(mediaPlayer) && progress == old(progress) && lastPosition == old(lastPosition)
    {
      if isSeekPending {
        calls := calls + [SetTime(mediaPlayer.value, lastPosition * 1000)];
        isSeekPending := false;
        startSeeks := startSeeks + 1;
      }
    }

    /** The Paused and Stopped events always publish the position. */
    method OnPausedOrStopped(time: int)
      requires Valid() && mediaPlayer.Some?
      modifies this`progress
      ensures progress == old(progress) + [ProgressUpdate(ProgressSeconds(time), false)]
    {
      progress := progress + [ProgressUpdate(ProgressSeconds(time), false)];
    }

    /** The TimeChanged event publishes only when more than 10 s of clock time passed since the last such send. */
    method OnTimeChanged(eventTime: int, now: int) returns (sent: bool)
      requires Valid() && mediaPlayer.Some?
      modifies this`progress, this`lastProgressSent, this`timeChangedSends
      ensures Valid()
      ensures sent == (now - old(lastProgressSent) > ProgressThrottleMs)
      ensures sent ==>
        && progress == old(progress) + [ProgressUpdate(ProgressSeconds(eventTime), false)]
        && lastProgressSent == now && timeChangedSends == old(timeChangedSends) + [now]
      ensures !sent ==>
        && progress == old(progress) && lastProgressSent == old(lastProgressSent)
        && timeChangedSends == old(timeChangedSends)
      ensures calls == old(calls) && mediaPlayer == old(mediaPlayer) && isSeekPending == old(isSeekPending)
    {
      sent := now - lastProgressSent > ProgressThrottleMs;
      if sent {
        progress := progress + [ProgressUpdate(ProgressSeconds(eventTime), false)];
        lastProgressSent := now;
        timeChangedSends := timeChangedSends + [now];
      }
    }

    /** Release the current player and start `url` from the beginning. */
    method SwitchChapter(url: string, time: int)
      requires Valid()
      modifies this`mediaPlayer, this`nextPlayer, this`currentAspectRatioIndex, this`calls, this`lastPosition, this`progress, this`currentVideoUrl, library
      ensures Valid()
      ensures currentVideoUrl == Some(url) && lastPosition == 0
      ensures mediaPlayer == Some(old(nextPlayer))
      ensures calls == old(calls) + ReleaseCalls(old(mediaPlayer)) + StartCalls(old(nextPlayer), url)
      ensures progress == old(progress) + ReleaseProgress(old(mediaPlayer), time)
      ensures chapterUrls == old(chapterUrls) && isSeekPending == old(isSeekPending)
    {
      ReleasePlayer(time);
      currentVideoUrl := Some(url);
      lastPosition := 0;
      InitializePlayer();
    }

    /**
     * playNextEpisode: find the first chapter with the current URL and move
     * to the following one; a missing, empty or exhausted chapter list, or a
     * URL not in it, leaves the session as it is.
     */
    method PlayNextEpisode(time: int)
      requires Valid()
      modifies this`mediaPlayer, this`nextPlayer, this`currentAspectRatioIndex, this`calls, this`lastPosition, this`progress, this`currentVideoUrl, library
      ensures Valid()
      ensures var next := NextChapterUrl(old(chapterUrls), old(currentVideoUrl));
        if next.Some? then
          && currentVideoUrl == next && lastPosition == 0 && mediaPlayer == Some(old(nextPlayer))
          && calls == old(calls) + ReleaseCalls(old(mediaPlayer)) + StartCalls(old(nextPlayer), next.value)
          && progress == old(progress) + ReleaseProgress(old(mediaPlayer), time)
        else
          currentVideoUrl == old(currentVideoUrl) && mediaPlayer == old(mediaPlayer) && calls == old(calls)
          && progress == old(progress) && lastPosition == old(lastPosition)
    {
      if chapterUrls.None? || |chapterUrls.value| == 0 {
        return;
      }
      var urls := chapterUrls.value;
      var index := FindChapter(urls, currentVideoUrl);
      if index >= 0 && index < |urls| - 1 {
        SwitchChapter(urls[index + 1], time);
      }
    }

    /** The EndReached event: publish completion, then try the next chapter. */
    method OnEndReached(time: int)
      requires Valid() && mediaPlayer.Some?
      modifies this`mediaPlayer, this`nextPlayer, this`currentAspectRatioIndex, this`calls, this`lastPosition, this`progress, this`currentVideoUrl, library
      ensures Valid()
      ensures var done := ProgressUpdate(ProgressSeconds(time), true);
        var next := NextChapterUrl(old(chapterUrls), old(currentVideoUrl));
        if next.Some? then
          && currentVideoUrl == next && lastPosition == 0 && mediaPlayer == Some(old(nextPlayer))
          && calls == old(calls) + ReleaseCalls(old(mediaPlayer)) + StartCalls(old(nextPlayer), next.value)
          && progress == old(progress) + [done] + ReleaseProgress(old(mediaPlayer), time)
        else
          currentVideoUrl == old(currentVideoUrl) && mediaPlayer == old(mediaPlayer) && calls == old(calls)
          && progress == old(progress) + [done] && lastPosition == old(lastPosition)
    {
      progress := progress + [ProgressUpdate(ProgressSeconds(time), true)];
      PlayNextEpisode(time);
    }

    /** goToPreviousEpisode: moves only when the current URL is found at an index above 0. */
    method GoToPreviousEpisode(time: int)
      requires Valid()
      modifies this`mediaPlayer, this`nextPlayer, this`currentAspectRatioIndex, this`calls, this`lastPosition, this`progress, this`currentVideoUrl, library
      ensures Valid()
      ensures chapterUrls == old(chapterUrls)
      ensures var urls := old(chapterUrls); var url := old(currentVideoUrl);
        if url.Some? && urls.Some? && |urls.value| > 0 && IndexOf(urls.value, url) > 0 then
          currentVideoUrl == Some(urls.value[IndexOf(urls.value, url) - 1]) && lastPosition == 0
          && mediaPlayer == Some(old(nextPlayer))
          && calls == old(calls) + ReleaseCalls(old(mediaPlayer)) + StartCalls(old(nextPlayer), currentVideoUrl.value)
          && progress == old(progress) + ReleaseProgress(old(mediaPlayer), time)
        else
          currentVideoUrl == old(currentVideoUrl) && mediaPlayer == old(mediaPlayer) && calls == old(calls)
          && progress == old(progress) && lastPosition == old(lastPosition)
    {
      if currentVideoUrl.None? || chapterUrls.None? || |chapterUrls.value| == 0 {
        return;
      }
      var urls := chapterUrls.value;
      var index := IndexOf(urls, currentVideoUrl);
      if index > 0 {
        SwitchChapter(urls[index - 1], time);
      }
    }

    /** goToNextEpisode: moves only when the current URL is found and is not the last chapter. */
    method GoToNextEpisode(time: int)
      requires Valid()
      modifies this`mediaPlayer, this`nextPlayer, this`currentAspectRatioIndex, this`calls, this`lastPosition, this`progress, this`currentVideoUrl, library
      ensures Valid()
      ensures chapterUrls == old(chapterUrls)
      ensures var urls := old(chapterUrls); var url := old(currentVideoUrl);
        if url.Some? && urls.Some? && 0 <= IndexOf(urls.value, url) < |urls.value| - 1 then
          currentVideoUrl == Some(urls.value[IndexOf(urls.value, url) + 1]) && lastPosition == 0
          && mediaPlayer == Some(old(nextPlayer))
          && calls == old(calls) + ReleaseCalls(old(mediaPlayer)) + StartCalls(old(nextPlayer), currentVideoUrl.value)
          && progress == old(progress) + ReleaseProgress(old(mediaPlayer), time)
        else
          currentVideoUrl == old(currentVideoUrl) && mediaPlayer == old(mediaPlayer) && calls == old(calls)
          && progress == old(progress) && lastPosition == old(lastPosition)
    {
      if currentVideoUrl.None? || chapterUrls.None? || |chapterUrls.value| == 0 {
        return;
      }
      var urls := chapterUrls.value;
      var index := IndexOf(urls, currentVideoUrl);
      if index >= 0 && index < |urls| - 1 {
        SwitchChapter(urls[index + 1], time);
      }
    }

    /** A pick in the chapter dialog switches only to an index inside the chapter list. */
    method OnChapterPicked(which: int, time: int)
      requires Valid()
      modifies this`mediaPlayer, this`nextPlayer, this`currentAspectRatioIndex, this`calls, this`lastPosition, this`progress, this`currentVideoUrl, library
      ensures Valid()
      ensures var urls := old(chapterUrls);
        if urls.Some? && 0 <= which < |urls.value| then
          && currentVideoUrl == Some(urls.value[which]) && lastPosition == 0 && mediaPlayer == Some(old(nextPlayer))
          && calls == old(calls) + ReleaseCalls(old(mediaPlayer)) + StartCalls(old(nextPlayer), urls.value[which])
          && progress == old(progress) + ReleaseProgress(old(mediaPlayer), time)
        else
          currentVideoUrl == old(currentVideoUrl) && mediaPlayer == old(mediaPlayer) && calls == old(calls)
          && progress == old(progress) && lastPosition == old(lastPosition)
    {
      if chapterUrls.Some? && 0 <= which < |chapterUrls.value| {
        SwitchChapter(chapterUrls.value[which], time);
      }
    }

    /** toggleScreenLock flips the lock and nothing else. */
    method ToggleScreenLock()
      modifies this`isScreenLocked
      ensures isScreenLocked == !old(isScreenLocked)
    {
      isScreenLocked := !isScreenLocked;
    }

    /** cycleAspectRatio: with a player, advance to the next of the four modes, wrapping around. */
    method CycleAspectRatio()
      requires Valid()
      modifies this`currentAspectRatioIndex, this`calls
      ensures Valid()
      ensures old(mediaPlayer).None? ==> currentAspectRatioIndex == old(currentAspectRatioIndex) && calls == old(calls)
      ensures old(mediaPlayer).Some? ==>
        && currentAspectRatioIndex == (old(currentAspectRatioIndex) + 1) % |AspectRatioModes|
        && calls == old(calls) + [SetAspect(old(mediaPlayer).value, AspectRatioModes[currentAspectRatioIndex])]
      ensures mediaPlayer == old(mediaPlayer) && progress == old(progress)
    {
      if mediaPlayer.None? {
        return;
      }
      currentAspectRatioIndex := (currentAspectRatioIndex + 1) % |AspectRatioModes|;
      calls := calls + [SetAspect(mediaPlayer.value, AspectRatioModes[currentAspectRatioIndex])];
    }

    /**
     * The VIDEO_PLAYER_CONTROL receiver: every action is ignored without a
     * player; "seek" applies its millisecond position only when it is at least 0
     * (a missing position reads as -1); "stop" stops and finishes.
     */
    method OnControl(action: string, position: Option<int>)
      requires Valid() && controlReceiverRegistered
      modifies this`calls, this`finishing
      ensures Valid()
      ensures mediaPlayer == old(mediaPlayer) && progress == old(progress)
      ensures old(mediaPlayer).None? ==> calls == old(calls) && finishing == old(finishing)
      ensures old(mediaPlayer).Some? ==> var p := old(mediaPlayer).value;
        && (action == "play" ==> calls == old(calls) + [Play(p)])
        && (action == "pause" ==> calls == old(calls) + [Pause(p)])
        && (action == "stop" ==> calls == old(calls) + [Stop(p)] && finishing)
        && (action == "seek" ==>
              calls == old(calls) + (if position.GetOr(-1) >= 0 then [SetTime(p, position.GetOr(-1))] else []))
        && (action !in {"play", "pause", "stop", "seek"} ==> calls == old(calls))
      ensures action != "stop" ==> finishing == old(finishing)
    {
      if mediaPlayer.Some? {
        var p := mediaPlayer.value;
        if action == "play" {
          calls := calls + [Play(p)];
        } else if action == "pause" {
          calls := calls + [Pause(p)];
        } else if action == "stop" {
          calls := calls + [Stop(p)];
          finishing := true;
        } else if action == "seek" {
          var ms := position.GetOr(-1);
          if ms >= 0 {
            calls := calls + [SetTime(p, ms)];
          }
        }
      }
    }

    /** The FINISH_VLC_ACTIVITY / FORCE_FINISH_VLC_ACTIVITY receiver: save the position if there is a player, then finish. */
    method OnFinishBroadcast(time: int)
      requires Valid() && finishReceiverRegistered
      modifies this`progress, this`finishing
      ensures finishing
      ensures progress == old(progress) + if mediaPlayer.Some? then [ProgressUpdate(ProgressSeconds(time), false)] else []
    {
      if mediaPlayer.Some? {
        progress := progress + [ProgressUpdate(ProgressSeconds(time), false)];
      }
      finishing := true;
    }
  }

  // ----------------------------------------------------------- formatTime

  /** Hours, minutes and seconds of a millisecond position, as formatTime splits it. */
  datatype Clock = Clock(hours: nat, minutes: nat, seconds: nat)

  function SplitTime(millis: nat): (c: Clock)
    ensures c.minutes < 60 && c.seconds < 60
    ensures c.hours * 3600 + c.minutes * 60 + c.seconds == millis / 1000
  {
    var total := millis / 1000;
    SplitSeconds(total);
    Clock(total / 3600, (total / 60) % 60, total % 60)
  }

  /** Whole hours, the minute of the hour and the second of the minute add back up to the seconds. */
  lemma SplitSeconds(total: nat)
    ensures (total / 3600) * 3600 + ((total / 60) % 60) * 60 + total % 60 == total
  {
    var m, r1 := total / 60, total % 60;
    var h, r2 := m / 60, m % 60;
    assert total == m * 60 + r1 && m == h * 60 + r2;
    assert total == h * 3600 + (r2 * 60 + r1) && 0 <= r2 * 60 + r1 < 3600;
    assert total / 3600 == h;
  }

  /** `%02d`: at least two digits, zero-padded. */
  function Pad2(n: nat): (s: string)
    ensures |s| >= 2 && (n < 100 ==> |s| == 2)
    ensures forall i :: 0 <= i < |s| ==> '0' <= s[i] <= '9'
  {
    if n < 10 then "0" + Decimal(n) else Decimal(n)
  }

  lemma Pad2RoundTrip(n: nat)
    ensures DigitsValue(Pad2(n)) == n
  {
    DecimalRoundTrip(n);
    if n < 10 {
      assert Pad2(n)[..1] == "0";
    }
  }

  /** formatTime: "h:mm:ss" when there is at least one hour, else "mm:ss". */
  function FormatTime(millis: nat): (r: string)
  {
    var c := SplitTime(millis);
    if c.hours > 0 then Decimal(c.hours) + ":" + Pad2(c.minutes) + ":" + Pad2(c.seconds)
    else Pad2(c.minutes) + ":" + Pad2(c.seconds)
  }

  /** Under an hour the text is "mm:ss", and its two fields read back as the minutes and seconds. */
  lemma FormatTimeShortForm(millis: nat)
    requires millis < 3600000
    ensures var r := FormatTime(millis); var c := SplitTime(millis);
      |r| == 5 && r[2] == ':' && DigitsValue(r[..2]) == c.minutes && DigitsValue(r[3..]) == c.seconds
  {
    var c := SplitTime(millis);
    var r := FormatTime(millis);
    Pad2RoundTrip(c.minutes);
    Pad2RoundTrip(c.seconds);
    assert r[..2] == Pad2(c.minutes);
    assert r[3..] == Pad2(c.seconds);
  }

  /** From one hour on the text is "h:mm:ss", and its three fields read back as the hours, minutes and seconds. */
  lemma FormatTimeLongForm(millis: nat)
    requires millis >= 3600000
    ensures var r := FormatTime(millis); var c := SplitTime(millis); var k := |Decimal(c.hours)|;
      |r| == k + 6 && r[k] == ':' && r[k + 3] == ':' && DigitsValue(r[..k]) == c.hours
      && DigitsValue(r[k + 1..k + 3]) == c.minutes && DigitsValue(r[k + 4..]) == c.seconds
  {
    var c := SplitTime(millis);
    assert c.hours > 0 by {
      assert millis / 1000 >= 3600;
    }
    var h, m, s := Decimal(c.hours), Pad2(c.minutes), Pad2(c.seconds);
    var r := FormatTime(millis);
    var k := |h|;
    assert r == h + ":" + m + ":" + s;
    ThreeFields(h, m, s);
    assert r[..k] == h && r[k + 1..k + 3] == m && r[k + 4..] == s;
    DecimalRoundTrip(c.hours);
    Pad2RoundTrip(c.minutes);
    Pad2RoundTrip(c.seconds);
  }

  /** The fields of "h:mm:ss" sit at fixed offsets after the hour field. */
  lemma ThreeFields(h: string, m: string, s: string)
    requires |m| == 2 && |s| == 2
    ensures var r := h + ":" + m + ":" + s; var k := |h|;
      |r| == k + 6 && r[k] == ':' && r[k + 3] == ':' && r[..k] == h && r[k + 1..k + 3] == m && r[k + 4..] == s
  {
    var r := h + ":" + m + ":" + s;
    var k := |h|;
    assert r[..k] == h;
    assert r[k + 1..k + 3] == m;
    assert r[k + 4..] == s;
  }
}
