/**
 * The ExoPlayer fallback activity (ExoPlayerActivity.java): a player built at
 * most once per lifetime of the handle, a one-shot start seek, a media source
 * chosen from the URL, and a null-guarded release.
 *
 * Players are numbered; calls on them are recorded in the ghost log `calls`.
 * The Android SDK level and picture-in-picture mode are parameters.
 */
module ExoPlayer {
  import opened Wrappers
  import Text

  datatype SourceKind = Hls | Dash | Progressive

  datatype Call =
    | Build(player: nat)
    | SetSource(player: nat, kind: SourceKind, url: string)
    | Prepare(player: nat)
    | Play(player: nat)
    | Pause(player: nat)
    | Stop(player: nat)
    | SeekTo(player: nat, ms: int)
    | Release(player: nat)

  /** The media source chosen from the lower-cased URL: ".m3u8" first, then ".mpd", else progressive. */
  function MediaSourceFor(url: string): (k: SourceKind)
    ensures k == Hls <==> Text.Contains(Text.Lower(url), ".m3u8")
    ensures k == Dash <==> !Text.Contains(Text.Lower(url), ".m3u8") && Text.Contains(Text.Lower(url), ".mpd")
  {
    var lower := Text.Lower(url);
    if Text.Contains(lower, ".m3u8") then Hls
    else if Text.Contains(lower, ".mpd") then Dash
    else Progressive
  }

  /** The source choice ignores letter case in the URL. */
  lemma MediaSourceIgnoresCase(url: string)
    ensures MediaSourceFor(Text.Lower(url)) == MediaSourceFor(url)
  {
    Text.LowerIdempotent(url);
  }

  ghost predicate ReleasedAtMostOnce(calls: seq<Call>) {
    forall i, j :: 0 <= i < j < |calls| && calls[i].Release? && calls[j].Release? ==> calls[i].player != calls[j].player
  }

  /** The calls releasePlayer makes: release the player it holds, if any. */
  ghost function ReleaseCalls(p: Option<nat>): seq<Call> {
    if p.Some? then [Release(p.value)] else []
  }

  /** The calls initializePlayer makes on a new player: build, set the source for the URL, prepare, play. */
  ghost function InitCalls(p: nat, url: string): seq<Call> {
    [Build(p), SetSource(p, MediaSourceFor(url), url), Prepare(p), Play(p)]
  }

  class ExoPlayerActivity {
    var player: Option<nat>
    var nextPlayer: nat
    var videoUrl: Option<string>
    /** Start position in seconds; zeroed once the start seek is done. */
    var startTime: int
    var receiverRegistered: bool
    var useController: bool
    var finished: bool
    ghost var calls: seq<Call>
    ghost var startSeeks: nat

    ghost predicate Valid()
      reads this
    {
      && (forall i :: 0 <= i < |calls| ==> calls[i].player < nextPlayer)
      && (player.Some? ==>
            player.value < nextPlayer && forall i :: 0 <= i < |calls| ==> calls[i] != Release(player.value))
      && ReleasedAtMostOnce(calls)
      && (player.Some? ==> videoUrl.Some?)
      && startSeeks <= 1 && (startTime > 0 ==> startSeeks == 0)
    }

    /** initializePlayer: builds, loads and prepares a player only when there is none. */
    method InitializePlayer()
      requires Valid() && videoUrl.Some?
      modifies this`player, this`nextPlayer, this`calls
      ensures Valid() && player.Some?
      ensures old(player).Some? ==> player == old(player) && calls == old(calls)
      ensures old(player).None? ==>
        && player == Some(old(nextPlayer))
        && calls == old(calls) + InitCalls(old(nextPlayer), videoUrl.value)
      ensures videoUrl == old(videoUrl) && startTime == old(startTime) && startSeeks == old(startSeeks)
      ensures receiverRegistered == old(receiverRegistered) && finished == old(finished) && useController == old(useController)
    {
      if player.None? {
        var p := nextPlayer;
        nextPlayer := nextPlayer + 1;
        player := Some(p);
        var url := videoUrl.value;
        calls := calls + [Build(p), SetSource(p, MediaSourceFor(url), url), Prepare(p), Play(p)];
      }
    }

    /** onCreate: a null video_url finishes without a player; otherwise register the receiver and initialize. */
    constructor (url: Option<string>, start: int)
      ensures Valid()
      ensures url.None? ==> finished && player == None && calls == [] && !receiverRegistered
      ensures url.Some? ==> !finished && player == Some(0) && receiverRegistered && startTime == start
      ensures url.Some? ==> calls == InitCalls(0, url.value)
      ensures videoUrl == url && startSeeks == 0 && useController
    {
      player := None;
      nextPlayer := 0;
      videoUrl := url;
      startTime := start;
      receiverRegistered := false;
      useController := true;
      finished := false;
      calls := [];
      startSeeks := 0;
      new;
      if url.None? {
        finished := true;
        return;
      }
      receiverRegistered := true;
      InitializePlayer();
    }

    /** The listener's onPlaybackStateChanged: on READY with a positive start time, seek once and zero it. */
    method OnPlaybackStateChanged(ready: bool)
      requires Valid() && player.Some?
      modifies this`calls, this`startTime, this`startSeeks
      ensures Valid()
      ensures player == old(player)
      ensures ready && old(startTime) > 0 ==>
        calls == old(calls) + [SeekTo(player.value, old(startTime) * 1000)] && startTime == 0 && startSeeks == 1
      ensures !(ready && old(startTime) > 0) ==> calls == old(calls) && startTime == old(startTime)
    {
      if ready && startTime > 0 {
        calls := calls + [SeekTo(player.value, startTime * 1000)];
        startTime := 0;
        startSeeks := startSeeks + 1;
      }
    }

    /** releasePlayer: release and forget the player if there is one. */
    method ReleasePlayer()
      requires Valid()
      modifies this`player, this`calls
      ensures Valid() && player == None
      ensures calls == old(calls) + ReleaseCalls(old(player))
    {
      if player.Some? {
        calls := calls + [Release(player.value)];
        player := None;
      }
    }

    /** onStart initializes on SDK levels above 23. */
    method OnStart(sdkInt: int)
      requires Valid() && videoUrl.Some?
      modifies this`player, this`nextPlayer, this`calls
      ensures Valid()
      ensures sdkInt > 23 ==> player.Some? && (old(player).Some? ==> player == old(player) && calls == old(calls))
      ensures sdkInt > 23 && old(player).None? ==>
        player == Some(old(nextPlayer)) && calls == old(calls) + InitCalls(old(nextPlayer), videoUrl.value)
      ensures sdkInt <= 23 ==> player == old(player) && calls == old(calls)
      ensures videoUrl == old(videoUrl) && startTime == old(startTime) && startSeeks == old(startSeeks)
      ensures receiverRegistered == old(receiverRegistered) && finished == old(finished) && useController == old(useController)
    {
      if sdkInt > 23 {
        InitializePlayer();
      }
    }

    /** onResume initializes on SDK 23 and below, or when there is no player. */
    method OnResume(sdkInt: int)
      requires Valid() && videoUrl.Some?
      modifies this`player, this`nextPlayer, this`calls
      ensures Valid() && player.Some?
      ensures old(player).Some? ==> player == old(player) && calls == old(calls)
      ensures old(player).None? ==>
        player == Some(old(nextPlayer)) && calls == old(calls) + InitCalls(old(nextPlayer), videoUrl.value)
      ensures videoUrl == old(videoUrl) && startTime == old(startTime) && startSeeks == old(startSeeks)
      ensures receiverRegistered == old(receiverRegistered) && finished == old(finished) && useController == old(useController)
    {
      if sdkInt <= 23 || player.None? {
        InitializePlayer();
      }
    }

    /** onPause releases on SDK 23 and below. */
    method OnPause(sdkInt: int)
      requires Valid()
      modifies this`player, this`calls
      ensures Valid()
      ensures sdkInt <= 23 ==> player == None && calls == old(calls) + ReleaseCalls(old(player))
      ensures sdkInt > 23 ==> player == old(player) && calls == old(calls)
    {
      if sdkInt <= 23 {
        ReleasePlayer();
      }
    }

    /** onPictureInPictureModeChanged hides the controller in picture-in-picture. */
    method OnPictureInPictureModeChanged(inPip: bool)
      modifies this`useController
      ensures useController == !inPip
    {
      useController := !inPip;
    }

    /** onStop releases unless in picture-in-picture. */
    method OnStop(inPip: bool)
      requires Valid()
      modifies this`player, this`calls
      ensures Valid()
      ensures !inPip ==> player == None && calls == old(calls) + ReleaseCalls(old(player))
      ensures inPip ==> player == old(player) && calls == old(calls)
    {
      if !inPip {
        ReleasePlayer();
      }
    }

    /** onDestroy unregisters the receiver, then releases. */
    method OnDestroy()
      requires Valid()
      modifies this`receiverRegistered, this`player, this`calls
      ensures Valid() && player == None && !receiverRegistered
      ensures calls == old(calls) + ReleaseCalls(old(player))
    {
      receiverRegistered := false;
      ReleasePlayer();
    }

    /** onBackPressed finishes (the default back behaviour) and releases. */
    method OnBackPressed()
      requires Valid()
      modifies this`finished, this`player, this`calls
      ensures Valid() && player == None && finished
      ensures calls == old(calls) + ReleaseCalls(old(player))
    {
      finished := true;
      ReleasePlayer();
    }

    /**
     * The VIDEO_PLAYER_CONTROL receiver: nothing without a player; "seek"
     * takes seconds (default 0) and seeks to seconds * 1000; "stop" stops and
     * finishes.
     */
    method OnControl(action: string, position: Option<int>)
      requires Valid() && receiverRegistered
      modifies this`calls, this`finished
      ensures Valid() && player == old(player)
      ensures old(player).None? ==> calls == old(calls) && finished == old(finished)
      ensures old(player).Some? ==> var p := old(player).value;
        && (action == "pause" ==> calls == old(calls) + [Pause(p)])
        && (action == "play" ==> calls == old(calls) + [Play(p)])
        && (action == "stop" ==> calls == old(calls) + [Stop(p)] && finished)
        && (action == "seek" ==> calls == old(calls) + [SeekTo(p, position.GetOr(0) * 1000)])
        && (action !in {"pause", "play", "stop", "seek"} ==> calls == old(calls))
      ensures action != "stop" ==> finished == old(finished)
    {
      if player.None? {
        return;
      }
      var p := player.value;
      if action == "pause" {
        calls := calls + [Pause(p)];
      } else if action == "play" {
        calls := calls + [Play(p)];
      } else if action == "stop" {
        calls := calls + [Stop(p)];
        finished := true;
      } else if action == "seek" {
        calls := calls + [SeekTo(p, position.GetOr(0) * 1000)];
      }
    }
  }
}
