/**
 * The self-contained LibVLC activity (VLCPlayerActivity_FINAL.java): it owns
 * its own library instance, reports progress from a repeating runnable, and
 * tears everything down through one flag-guarded finishAndCleanup.
 *
 * Engine, library and receiver handles are numbers; every call made on them
 * is recorded in the ghost log `calls`, progress broadcasts in `progress`
 * and VLC_STOPPED broadcasts in the count `stoppedBroadcasts`. What the
 * engine reports (getTime, getLength, isPlaying) is passed in as parameters.
 */
module VlcPlayerFinal {
  import opened Wrappers

  const DefaultSeekSeconds: int := 10

  datatype Call =
    | NewLibrary(lib: nat)
    | NewPlayer(player: nat)
    | AttachViews(player: nat)
    | SetMedia(player: nat, url: string)
    | Play(player: nat)
    | Pause(player: nat)
    | Stop(player: nat)
    | SetTime(player: nat, ms: int)
    | DetachViews(player: nat)
    | ReleasePlayer(player: nat)
    | ReleaseLibrary(lib: nat)

  /** The engine calls of finishAndCleanup: stop a playing player, detach and release any player, then release the library. */
  function CleanupCalls(mediaPlayer: Option<nat>, libVlc: Option<nat>, playing: bool): seq<Call> {
    (if mediaPlayer.Some? && playing then [Stop(mediaPlayer.value)] else [])
    + (if mediaPlayer.Some? then [DetachViews(mediaPlayer.value), ReleasePlayer(mediaPlayer.value)] else [])
    + (if libVlc.Some? then [ReleaseLibrary(libVlc.value)] else [])
  }

  /** A VLC_PROGRESS_UPDATE broadcast: the engine time and length in seconds, and the completed flag. */
  datatype Progress = Progress(currentTime: real, duration: real, completed: bool)

  /** The broadcast for engine time and length in milliseconds. */
  function ProgressOf(time: int, length: int, completed: bool): (r: Progress)
    ensures r.currentTime * 1000.0 == time as real && r.duration * 1000.0 == length as real
    ensures r.completed == completed
  {
    Progress(time as real / 1000.0, length as real / 1000.0, completed)
  }

  /**
   * Where initializeVLC throws, if it does: constructing the library,
   * constructing the player, or anywhere after the player exists (views,
   * media, listener, play, start seek).
   */
  datatype InitFailure = NoFailure | LibraryFails | PlayerFails | LoadFails

  /**
   * The engine calls of an initialization that throws at `f`, with `h` the
   * next free handle: the objects created before the exception, then the
   * cleanup of whatever exists.
   */
  function FailedInitCalls(f: InitFailure, h: nat): (r: seq<Call>)
    requires f != NoFailure
    ensures r == [] <==> f == LibraryFails
    ensures f == LoadFails ==> NewPlayer(h + 1) in r
    ensures f != LibraryFails ==> NewLibrary(h) in r
  {
    match f
    case LibraryFails => []
    case PlayerFails => [NewLibrary(h)] + CleanupCalls(None, Some(h), false)
    case LoadFails => [NewLibrary(h), NewPlayer(h + 1)] + CleanupCalls(Some(h + 1), Some(h), false)
  }

  /** A failed initialization releases every library and player it created. */
  lemma FailedInitReleases(f: InitFailure, h: nat)
    requires f != NoFailure
    ensures forall k :: NewLibrary(k) in FailedInitCalls(f, h) ==> ReleaseLibrary(k) in FailedInitCalls(f, h)
    ensures forall k :: NewPlayer(k) in FailedInitCalls(f, h) ==>
      DetachViews(k) in FailedInitCalls(f, h) && ReleasePlayer(k) in FailedInitCalls(f, h)
  {
  }

  /** The extras of the launching intent; `initFailure` says where initializeVLC throws. */
  datatype LaunchIntent = LaunchIntent(exit: bool, videoUrl: Option<string>, startTime: real, initFailure: InitFailure)

  /** seekForward: the engine time plus the step, with no upper clamp. */
  function SeekForwardTarget(time: int, seconds: int): (r: int)
    ensures r - time == seconds * 1000
  {
    time + seconds * 1000
  }

  /** seekBackward: the engine time minus the step, clamped at 0. */
  function SeekBackwardTarget(time: int, seconds: int): (r: int)
    ensures r >= 0 && r >= time - seconds * 1000
    ensures r == 0 || r == time - seconds * 1000
    ensures seconds >= 0 && time >= 0 ==> r <= time
  {
    if time - seconds * 1000 > 0 then time - seconds * 1000 else 0
  }

  /** The start seek of initializeVLC: seconds as a float, times 1000, cast to long. */
  function StartSeekMs(startTime: real): (ms: int)
    requires startTime > 0.0
    ensures ms >= 0 && ms as real <= startTime * 1000.0 < ms as real + 1.0
  {
    (startTime * 1000.0).Floor
  }

  class VlcFinalActivity {
    var libVlc: Option<nat>
    var mediaPlayer: Option<nat>
    var videoUrl: Option<string>
    var startTime: real
    var commandReceiver: bool
    var finishReceiver: bool
    var killReceiver: bool
    /** The scheduled progress runnable, if any. */
    var progressRunnable: Option<nat>
    var isFinishing: bool
    /** finish() has been called. */
    var finished: bool
    var nextHandle: nat
    ghost var calls: seq<Call>
    ghost var progress: seq<Progress>
    ghost var stoppedBroadcasts: nat
    /** Process.killProcess has been called on this process. */
    ghost var processKilled: bool
    /** Runnables posted on the progress handler and not yet removed or ended. */
    ghost var liveLoops: set<nat>

    /** At most one progress loop is alive, and only the scheduled runnable can be it. */
    ghost predicate LoopsValid()
      reads this
    {
      && (progressRunnable.Some? ==> progressRunnable.value < nextHandle && liveLoops <= {progressRunnable.value})
      && (progressRunnable.None? ==> liveLoops == {})
    }

    ghost predicate Valid()
      reads this
    {
      && LoopsValid()
      && (mediaPlayer.Some? ==> mediaPlayer.value < nextHandle)
      && (libVlc.Some? ==> libVlc.value < nextHandle)
      && (isFinishing ==> mediaPlayer.None? && libVlc.None? && progressRunnable.None? && finished)
    }

    /** The activity object before onCreate. */
    constructor ()
      ensures Valid() && !isFinishing && !finished
      ensures mediaPlayer == None && libVlc == None && progressRunnable == None
      ensures !commandReceiver && !finishReceiver && !killReceiver
      ensures calls == [] && progress == [] && liveLoops == {} && stoppedBroadcasts == 0 && !processKilled
    {
      libVlc := None;
      mediaPlayer := None;
      videoUrl := None;
      startTime := 0.0;
      commandReceiver := false;
      finishReceiver := false;
      killReceiver := false;
      progressRunnable := None;
      isFinishing := false;
      finished := false;
      nextHandle := 0;
      calls := [];
      progress := [];
      stoppedBroadcasts := 0;
      processKilled := false;
      liveLoops := {};
    }

    /** stopProgressUpdates: cancel the scheduled runnable, if there is one. */
    method StopProgressUpdates()
      requires LoopsValid()
      modifies this`progressRunnable, this`liveLoops
      ensures LoopsValid()
      ensures progressRunnable == None && liveLoops == {}
    {
      if progressRunnable.Some? {
        liveLoops := {};
        progressRunnable := None;
      }
    }

    /** startProgressUpdates: cancel any scheduled runnable first, then post a new one, so one loop at most exists. */
    method StartProgressUpdates()
      requires Valid() && !isFinishing
      modifies this`progressRunnable, this`liveLoops, this`nextHandle
      ensures Valid()
      ensures progressRunnable == Some(old(nextHandle)) && liveLoops == {old(nextHandle)}
      ensures old(progressRunnable).Some? ==> old(progressRunnable).value !in liveLoops
    {
      StopProgressUpdates();
      var id := nextHandle;
      nextHandle := nextHandle + 1;
      progressRunnable := Some(id);
      liveLoops := {id};
    }

    /** sendProgressUpdate: nothing without a player; otherwise time and length / 1000 as seconds. */
    method SendProgressUpdate(completed: bool, time: int, length: int)
      modifies this`progress
      ensures mediaPlayer.None? ==> progress == old(progress)
      ensures mediaPlayer.Some? ==> progress == old(progress) + [ProgressOf(time, length, completed)]
    {
      if mediaPlayer.None? {
        return;
      }
      progress := progress + [ProgressOf(time, length, completed)];
    }

    /** One run of the progress runnable: report and repost while the player plays, else end the loop. */
    method ProgressTick(id: nat, playing: bool, time: int, length: int)
      requires Valid() && id in liveLoops
      modifies this`progress, this`liveLoops
      ensures Valid()
      ensures mediaPlayer.Some? && playing ==>
        progress == old(progress) + [ProgressOf(time, length, false)] && liveLoops == old(liveLoops)
      ensures !(mediaPlayer.Some? && playing) ==> progress == old(progress) && liveLoops == old(liveLoops) - {id}
    {
      if mediaPlayer.Some? && playing {
        SendProgressUpdate(false, time, length);
      } else {
        liveLoops := liveLoops - {id};
      }
    }

    /**
     * finishAndCleanup: runs its body once. Later calls return at once.
     * The body cancels progress updates. It stops the player only if it is
     * playing, and detaches and releases any player. It releases the library
     * and unregisters every receiver. Then it calls finish().
     */
    method FinishAndCleanup(playing: bool)
      requires Valid()
      modifies this`isFinishing, this`progressRunnable, this`liveLoops, this`mediaPlayer, this`libVlc, this`calls
      modifies this`commandReceiver, this`finishReceiver, this`killReceiver, this`finished
      ensures Valid()
      ensures isFinishing && finished
      ensures mediaPlayer == None && libVlc == None && progressRunnable == None && liveLoops == {}
      ensures old(isFinishing) ==>
        && calls == old(calls) && progress == old(progress)
        && commandReceiver == old(commandReceiver) && finishReceiver == old(finishReceiver)
        && killReceiver == old(killReceiver)
      ensures !old(isFinishing) ==>
        && !commandReceiver && !finishReceiver && !killReceiver
        && progress == old(progress)
        && calls == old(calls) + CleanupCalls(old(mediaPlayer), old(libVlc), playing)
      ensures videoUrl == old(videoUrl) && startTime == old(startTime) && nextHandle == old(nextHandle)
    {
      if isFinishing {
        return;
      }
      Cleanup(playing);
    }

    /** The body of finishAndCleanup, run on the first call. */
    method Cleanup(playing: bool)
      requires Valid() && !isFinishing
      modifies this`isFinishing, this`progressRunnable, this`liveLoops, this`mediaPlayer, this`libVlc, this`calls
      modifies this`commandReceiver, this`finishReceiver, this`killReceiver, this`finished
      ensures Valid()
      ensures isFinishing && finished
      ensures mediaPlayer == None && libVlc == None && progressRunnable == None && liveLoops == {}
      ensures !commandReceiver && !finishReceiver && !killReceiver
      ensures calls == old(calls) + CleanupCalls(old(mediaPlayer), old(libVlc), playing)
    {
      isFinishing := true;
      StopProgressUpdates();
      calls := calls + CleanupCalls(mediaPlayer, libVlc, playing);
      mediaPlayer := None;
      libVlc := None;
      commandReceiver := false;
      finishReceiver := false;
      killReceiver := false;
      finished := true;
    }

    /**
     * initializeVLC: a new library and player, attach the views, load the
     * URL, play, then seek to startTime seconds when it is positive. An
     * exception ends in finishAndCleanup, which releases whatever of the
     * library and the player was already created.
     */
    method InitializeVlc(failure: InitFailure)
      requires Valid() && !isFinishing && videoUrl.Some? && mediaPlayer.None? && libVlc.None?
      modifies this`isFinishing, this`progressRunnable, this`liveLoops, this`mediaPlayer, this`libVlc, this`calls
      modifies this`commandReceiver, this`finishReceiver, this`killReceiver, this`finished, this`nextHandle
      ensures Valid()
      ensures failure != NoFailure ==>
        && isFinishing && finished && mediaPlayer == None && libVlc == None
        && calls == old(calls) + FailedInitCalls(failure, old(nextHandle))
        && !commandReceiver && !finishReceiver && !killReceiver
      ensures failure == NoFailure ==> var p := old(nextHandle) + 1;
        && !isFinishing && libVlc == Some(old(nextHandle)) && mediaPlayer == Some(p)
        && calls == old(calls) + [NewLibrary(old(nextHandle)), NewPlayer(p), AttachViews(p), SetMedia(p, videoUrl.value), Play(p)]
                   + (if startTime > 0.0 then [SetTime(p, StartSeekMs(startTime))] else [])
        && commandReceiver == old(commandReceiver) && finishReceiver == old(finishReceiver) && killReceiver == old(killReceiver)
    {
      if failure != NoFailure {
        FailInitialization(failure);
        return;
      }
      var lib := nextHandle;
      var p := nextHandle + 1;
      nextHandle := nextHandle + 2;
      libVlc := Some(lib);
      mediaPlayer := Some(p);
      calls := calls + [NewLibrary(lib), NewPlayer(p), AttachViews(p), SetMedia(p, videoUrl.value), Play(p)];
      if startTime > 0.0 {
        calls := calls + [SetTime(p, StartSeekMs(startTime))];
      }
    }

    /** initializeVLC up to the exception at `failure`, then its catch block. */
    method FailInitialization(failure: InitFailure)
      requires Valid() && !isFinishing && mediaPlayer.None? && libVlc.None? && failure != NoFailure
      modifies this`isFinishing, this`progressRunnable, this`liveLoops, this`mediaPlayer, this`libVlc, this`calls
      modifies this`commandReceiver, this`finishReceiver, this`killReceiver, this`finished, this`nextHandle
      ensures Valid() && isFinishing && finished && mediaPlayer == None && libVlc == None
      ensures calls == old(calls) + FailedInitCalls(failure, old(nextHandle))
      ensures !commandReceiver && !finishReceiver && !killReceiver
    {
      var lib := nextHandle;
      var p := nextHandle + 1;
      nextHandle := nextHandle + 2;
      ghost var before := calls;
      if failure == PlayerFails || failure == LoadFails {
        libVlc := Some(lib);
        calls := calls + [NewLibrary(lib)];
      }
      if failure == LoadFails {
        mediaPlayer := Some(p);
        calls := calls + [NewPlayer(p)];
      }
      Cleanup(false);
      assert calls == before + FailedInitCalls(failure, lib);
    }

    /**
     * onCreate as written: EXIT or a missing URL finishes without
     * initializing; otherwise initialize, then register the three receivers
     * (also when initialization has already cleaned up).
     */
    method OnCreate(intent: LaunchIntent)
      requires Valid() && !isFinishing && !finished && mediaPlayer.None? && libVlc.None?
      requires !commandReceiver && !finishReceiver && !killReceiver
      modifies this
      ensures Valid()
      ensures intent.exit ==> finished && mediaPlayer == None && calls == old(calls) && !commandReceiver
      ensures !intent.exit && intent.videoUrl.None? ==> finished && mediaPlayer == None && calls == old(calls) && !commandReceiver
      ensures !intent.exit && intent.videoUrl.Some? ==>
        && videoUrl == intent.videoUrl
        && commandReceiver && finishReceiver && killReceiver
        && (intent.initFailure != NoFailure ==> isFinishing)
        && (intent.initFailure == NoFailure ==> !isFinishing && mediaPlayer.Some?)
    {
      if intent.exit {
        finished := true;
        return;
      }
      videoUrl := intent.videoUrl;
      startTime := intent.startTime;
      if videoUrl.None? {
        finished := true;
        return;
      }
      InitializeVlc(intent.initFailure);
      commandReceiver := true;
      finishReceiver := true;
      killReceiver := true;
    }

    /** onCreate with receivers registered only while the activity is not already finishing. */
    method OnCreateCorrected(intent: LaunchIntent)
      requires Valid() && !isFinishing && !finished && mediaPlayer.None? && libVlc.None?
      requires !commandReceiver && !finishReceiver && !killReceiver
      modifies this
      ensures Valid()
      ensures isFinishing ==> !commandReceiver && !finishReceiver && !killReceiver
      ensures !intent.exit && intent.videoUrl.Some? && intent.initFailure == NoFailure ==>
        videoUrl == intent.videoUrl && mediaPlayer.Some? && commandReceiver && finishReceiver && killReceiver
    {
      if intent.exit {
        finished := true;
        return;
      }
      videoUrl := intent.videoUrl;
      startTime := intent.startTime;
      if videoUrl.None? {
        finished := true;
        return;
      }
      InitializeVlc(intent.initFailure);
      if !isFinishing {
        commandReceiver := true;
        finishReceiver := true;
        killReceiver := true;
      }
    }

    /** The VLC_COMMAND receiver. */
    method OnCommand(command: Option<string>, seconds: Option<int>, time: int, playing: bool)
      requires Valid() && commandReceiver
      modifies this
      ensures Valid()
      ensures command.None? ==> calls == old(calls) && isFinishing == old(isFinishing)
      ensures command == Some("stop") ==> isFinishing && mediaPlayer == None && libVlc == None
      ensures command == Some("stop") ==>
        calls == old(calls) + if old(isFinishing) then [] else CleanupCalls(old(mediaPlayer), old(libVlc), playing)
      ensures command.Some? && command.value !in {"stop", "pause", "resume", "seekForward", "seekBackward"} ==>
        calls == old(calls)
      ensures progress == old(progress) && stoppedBroadcasts == old(stoppedBroadcasts) && processKilled == old(processKilled)
      ensures command.Some? && command.value in {"pause", "resume", "seekForward", "seekBackward"} && old(mediaPlayer).None? ==>
        calls == old(calls)
      ensures old(mediaPlayer).Some? ==> var p := old(mediaPlayer).value; var s := seconds.GetOr(DefaultSeekSeconds);
        && (command == Some("pause") ==> calls == old(calls) + [Pause(p)])
        && (command == Some("resume") ==> calls == old(calls) + [Play(p)])
        && (command == Some("seekForward") ==> calls == old(calls) + [SetTime(p, SeekForwardTarget(time, s))])
        && (command == Some("seekBackward") ==> calls == old(calls) + [SetTime(p, SeekBackwardTarget(time, s))])
      ensures command != Some("stop") ==> mediaPlayer == old(mediaPlayer) && isFinishing == old(isFinishing) && libVlc == old(libVlc)
    {
      if command.None? {
        return;
      }
      var c := command.value;
      if c == "stop" {
        FinishAndCleanup(playing);
      } else if c == "pause" {
        if mediaPlayer.Some? { calls := calls + [Pause(mediaPlayer.value)]; }
      } else if c == "resume" {
        if mediaPlayer.Some? { calls := calls + [Play(mediaPlayer.value)]; }
      } else if c == "seekForward" {
        var s := seconds.GetOr(DefaultSeekSeconds);
        if mediaPlayer.Some? { calls := calls + [SetTime(mediaPlayer.value, SeekForwardTarget(time, s))]; }
      } else if c == "seekBackward" {
        var s := seconds.GetOr(DefaultSeekSeconds);
        if mediaPlayer.Some? { calls := calls + [SetTime(mediaPlayer.value, SeekBackwardTarget(time, s))]; }
      }
    }

    /**
     * The FORCE_FINISH_VLC_ACTIVITY receiver (`kill` false) and the
     * KILL_VLC_NOW receiver (`kill` true) both run finishAndCleanup; the kill
     * receiver then kills the process.
     */
    method OnFinishOrKill(kill: bool, playing: bool)
      requires Valid()
      modifies this
      ensures Valid() && isFinishing && mediaPlayer == None && libVlc == None
      ensures calls == old(calls) + if old(isFinishing) then [] else CleanupCalls(old(mediaPlayer), old(libVlc), playing)
      ensures progress == old(progress) && stoppedBroadcasts == old(stoppedBroadcasts)
      ensures processKilled == (old(processKilled) || kill)
    {
      FinishAndCleanup(playing);
      if kill {
        processKilled := true;
      }
    }

    /** The Playing event starts the progress loop. */
    method OnPlaying()
      requires Valid() && !isFinishing
      modifies this`progressRunnable, this`liveLoops, this`nextHandle
      ensures Valid() && progressRunnable.Some? && |liveLoops| == 1
    {
      StartProgressUpdates();
    }

    /** The Paused event stops the progress loop. */
    method OnPaused()
      requires Valid()
      modifies this`progressRunnable, this`liveLoops
      ensures Valid() && progressRunnable == None && liveLoops == {}
    {
      StopProgressUpdates();
    }

    /** The Stopped event sends VLC_STOPPED, then terminates through finishAndCleanup. */
    method OnStopped(playing: bool)
      requires Valid()
      modifies this
      ensures Valid() && isFinishing && mediaPlayer == None && libVlc == None
      ensures stoppedBroadcasts == old(stoppedBroadcasts) + 1 && progress == old(progress)
      ensures calls == old(calls) + if old(isFinishing) then [] else CleanupCalls(old(mediaPlayer), old(libVlc), playing)
    {
      stoppedBroadcasts := stoppedBroadcasts + 1;
      FinishAndCleanup(playing);
    }

    /** The EncounteredError event terminates through finishAndCleanup, with no broadcast. */
    method OnEncounteredError(playing: bool)
      requires Valid()
      modifies this
      ensures Valid() && isFinishing && mediaPlayer == None && libVlc == None
      ensures stoppedBroadcasts == old(stoppedBroadcasts) && progress == old(progress)
      ensures calls == old(calls) + if old(isFinishing) then [] else CleanupCalls(old(mediaPlayer), old(libVlc), playing)
    {
      FinishAndCleanup(playing);
    }

    /** The EndReached event reports completion, then terminates. */
    method OnEndReached(time: int, length: int, playing: bool)
      requires Valid()
      modifies this
      ensures Valid() && isFinishing && mediaPlayer == None && libVlc == None
      ensures progress == old(progress) + if old(mediaPlayer).Some? then [ProgressOf(time, length, true)] else []
      ensures stoppedBroadcasts == old(stoppedBroadcasts)
      ensures calls == old(calls) + if old(isFinishing) then [] else CleanupCalls(old(mediaPlayer), old(libVlc), playing)
    {
      SendProgressUpdate(true, time, length);
      FinishAndCleanup(playing);
    }

    /** onNewIntent: an EXIT extra terminates. */
    method OnNewIntent(exit: bool, playing: bool)
      requires Valid()
      modifies this
      ensures Valid()
      ensures exit ==> isFinishing && mediaPlayer == None && libVlc == None
      ensures exit ==>
        calls == old(calls) + if old(isFinishing) then [] else CleanupCalls(old(mediaPlayer), old(libVlc), playing)
      ensures !exit ==>
        && calls == old(calls) && isFinishing == old(isFinishing)
        && mediaPlayer == old(mediaPlayer) && libVlc == old(libVlc)
      ensures progress == old(progress) && stoppedBroadcasts == old(stoppedBroadcasts) && processKilled == old(processKilled)
    {
      if exit {
        FinishAndCleanup(playing);
      }
    }

    /** onPause: pause a playing player and stop the progress loop. */
    method OnPause(playing: bool)
      requires Valid()
      modifies this`calls, this`progressRunnable, this`liveLoops
      ensures Valid() && progressRunnable == None
      ensures calls == old(calls) + if mediaPlayer.Some? && playing then [Pause(mediaPlayer.value)] else []
    {
      if mediaPlayer.Some? && playing {
        calls := calls + [Pause(mediaPlayer.value)];
      }
      StopProgressUpdates();
    }

    /** onResume: play a player that is not playing. */
    method OnResume(playing: bool)
      modifies this`calls
      ensures calls == old(calls) + if mediaPlayer.Some? && !playing then [Play(mediaPlayer.value)] else []
    {
      if mediaPlayer.Some? && !playing {
        calls := calls + [Play(mediaPlayer.value)];
      }
    }

    /** onStop, onDestroy and onBackPressed all go through finishAndCleanup. */
    method OnStopDestroyOrBack(playing: bool)
      requires Valid()
      modifies this
      ensures Valid() && isFinishing && mediaPlayer == None && libVlc == None
      ensures old(isFinishing) ==>
        && calls == old(calls) && commandReceiver == old(commandReceiver)
        && finishReceiver == old(finishReceiver) && killReceiver == old(killReceiver)
      ensures !old(isFinishing) ==>
        && !commandReceiver && !finishReceiver && !killReceiver
        && calls == old(calls) + CleanupCalls(old(mediaPlayer), old(libVlc), playing)
      ensures progress == old(progress) && stoppedBroadcasts == old(stoppedBroadcasts) && processKilled == old(processKilled)
    {
      FinishAndCleanup(playing);
    }
  }

  /**
   * A start whose initialization throws leaves the three receivers
   * registered, and the onDestroy that follows cannot unregister them,
   * because finishAndCleanup has already run once.
   */
  method FailedStartLeaksReceivers(url: string, failure: InitFailure) returns (a: VlcFinalActivity)
    requires failure != NoFailure
    ensures a.isFinishing && a.commandReceiver && a.finishReceiver && a.killReceiver
  {
    a := new VlcFinalActivity();
    a.OnCreate(LaunchIntent(false, Some(url), 0.0, failure));
    a.OnStopDestroyOrBack(false);
  }

  /** With the corrected onCreate, a failed start followed by onDestroy leaves no receiver registered. */
  method FailedStartCorrected(url: string, failure: InitFailure) returns (a: VlcFinalActivity)
    requires failure != NoFailure
    ensures a.isFinishing && !a.commandReceiver && !a.finishReceiver && !a.killReceiver
  {
    a := new VlcFinalActivity();
    a.OnCreateCorrected(LaunchIntent(false, Some(url), 0.0, failure));
    a.OnStopDestroyOrBack(false);
  }
}
