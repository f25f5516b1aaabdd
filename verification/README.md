# IPTV frontend core, modelled in Dafny

This project models the sequential logic underneath an IPTV / video-on-demand
frontend: the Android playback activities (a VLC player, its final variant, an
ExoPlayer alternative, the lazily created VLC library instance and the
Capacitor `VideoPlayer` plugin that launches them), and the JavaScript side of
the same application: the web and Electron (mpv) players with their progress
reporting and next-episode rule, the `Watch` page that resolves which chapter
to play, the TV remote-control focus machines, the catalogue editors of the
admin panel, the search, filter, de-duplication and plan-access rules of the
catalogue pages, and the small stores and helpers (an expiring data cache, the
"my list" store, the Gemini cache and fallback buckets, player and stream-proxy
URL helpers).

Conventions used throughout:

- One Dafny module per source file, named after it, plus a few shared
  modules: `Wrappers` (Option/Result), `Text` (lower-casing, accent
  stripping, `includes`, `trim`, `split`), `Lists` and `JsMap` (array and
  `Map` idioms), `Numbers`/`JsMath` (truncating division, `Math.floor`,
  `Math.ceil`), `Episodes` (the next-(season, chapter) rule shared by three
  players) and `RowTitles` (the alphabet of the home-page row titles).
- A JavaScript value that may be `undefined` or `null` is an `Option`; the
  "truthiness" tests of the source are written out per field type.
- Java activities and React components whose state is updated in place are
  classes whose fields are that state; their methods carry `modifies`
  clauses and state the whole new state. Pure helpers are functions with
  lemmas about them.
- Engine handles (VLC `MediaPlayer`, `LibVLC`, ExoPlayer) are `Option`
  handles; the calls made on them (stop, release, seek, progress
  broadcasts, network PUTs) are appended to ghost logs, so properties such
  as "released at most once", "the start seek fires at most once" and
  "progress is throttled" are statements about those logs.
- The clock, the time the engine reports, the outcome of a network request
  and any random choice are parameters of the operation that uses them.

## Model

| member | source | states |
|---|---|---|
| VlcInstance.VlcLibraryHolder.constructor | android/app/src/main/java/play/teamg/store/VLCInstance.java:8-9 | the process starts with no library held, none built and none released |
| VlcInstance.VlcLibraryHolder.GetInstance | android/app/src/main/java/play/teamg/store/VLCInstance.java:11-21 | returns the held library when there is one; otherwise builds exactly one new library, distinct from every earlier one, and holds it; never releases anything |
| VlcInstance.VlcLibraryHolder.Release | android/app/src/main/java/play/teamg/store/VLCInstance.java:23-28 | releases the held library exactly once and forgets it; with none held it changes nothing |
| VlcInstance.ReleaseTwiceThenGet | android/app/src/main/java/play/teamg/store/VLCInstance.java:11-28 | two releases in a row release at most one library, and a later getInstance builds a library different from every library built before |
| VlcPlayer.ProgressSeconds | android/app/src/main/java/play/teamg/store/VLCPlayerActivity.java:297-301 | the currentTime extra is the millisecond time divided by 1000 with Java's truncation toward zero, for negative times too |
| VlcPlayer.IndexOf | android/app/src/main/java/play/teamg/store/VLCPlayerActivity.java:433 | List.indexOf: the first index holding the URL, or -1 exactly when no chapter holds it |
| VlcPlayer.FindChapter | android/app/src/main/java/play/teamg/store/VLCPlayerActivity.java:322-329 | the linear search of playNextEpisode returns the same index as List.indexOf: the first match, or -1 |
| VlcPlayer.NewPlayerLog | android/app/src/main/java/play/teamg/store/VLCPlayerActivity.java:200-226 | a player created after every earlier one can be sent calls without breaking the engine-log invariant: no call to a player not yet created, no player released twice, the held player not released |
| VlcPlayer.ReleaseLog | android/app/src/main/java/play/teamg/store/VLCPlayerActivity.java:228-242 | stopping, detaching and releasing the held player keeps the engine-log invariant with no player held, so no player is ever released twice |
| VlcPlayer.VlcPlayerActivity.constructor | android/app/src/main/java/play/teamg/store/VLCPlayerActivity.java:90-142 | FORCE_CLOSE finishes at once and reads nothing; otherwise the URL, start time and chapter list come from the intent, and a seek is pending exactly when the start time is positive |
| VlcPlayer.VlcPlayerActivity.OnNewIntent | android/app/src/main/java/play/teamg/store/VLCPlayerActivity.java:145-152 | a FORCE_CLOSE extra requests finish and keeps the activity valid; `finishing` is the only field it may change, so the player, the engine calls, the progress sent and every other field are unchanged |
| VlcPlayer.VlcPlayerActivity.InitializePlayer | android/app/src/main/java/play/teamg/store/VLCPlayerActivity.java:200-226 | without a URL nothing changes; otherwise a fresh player on the shared library gets views, the fit-screen mode, the media and play, in that order, and the aspect index resets to 0 |
| VlcPlayer.VlcPlayerActivity.ReleasePlayer | android/app/src/main/java/play/teamg/store/VLCPlayerActivity.java:228-242 | with a player: its time becomes lastPosition, one progress update is sent only for a positive time, then stop, detach, release, and the handle is dropped; without one nothing is called or sent |
| VlcPlayer.VlcPlayerActivity.OnStart | android/app/src/main/java/play/teamg/store/VLCPlayerActivity.java:155-160 | initializes the player (a new one exactly when there is a URL) and registers both receivers |
| VlcPlayer.VlcPlayerActivity.OnUserLeaveHint | android/app/src/main/java/play/teamg/store/VLCPlayerActivity.java:163-167 | asks for picture-in-picture exactly when a player exists and is playing |
| VlcPlayer.VlcPlayerActivity.OnPictureInPictureModeChanged | android/app/src/main/java/play/teamg/store/VLCPlayerActivity.java:170-177 | the controls are visible exactly when not in picture-in-picture |
| VlcPlayer.VlcPlayerActivity.OnStop | android/app/src/main/java/play/teamg/store/VLCPlayerActivity.java:180-187 | both receivers are unregistered; the player is released unless in picture-in-picture (stop, detach and release, the final update for a positive time, and lastPosition set to the engine time), and in picture-in-picture nothing else changes |
| VlcPlayer.VlcPlayerActivity.OnDestroy | android/app/src/main/java/play/teamg/store/VLCPlayerActivity.java:190-198 | in picture-in-picture with a playing player, stop it and send its position, then release it; in every other case (a player that is not playing, no player, or outside picture-in-picture) only the release runs, so the engine calls and the progress sent are stated for every input, and lastPosition is the engine time whenever there was a player |
| VlcPlayer.VlcPlayerActivity.OnPlaying | android/app/src/main/java/play/teamg/store/VLCPlayerActivity.java:254-261 | a pending start seek sets the time to lastPosition * 1000 once and clears the flag; the start seek can fire at most once per session; only the engine calls, the pending flag and the seek count may change |
| VlcPlayer.VlcPlayerActivity.OnPausedOrStopped | android/app/src/main/java/play/teamg/store/VLCPlayerActivity.java:262-266 | Paused and Stopped always send one non-completed progress update with the current time |
| VlcPlayer.VlcPlayerActivity.OnTimeChanged | android/app/src/main/java/play/teamg/store/VLCPlayerActivity.java:268-277 | a progress update is sent exactly when more than 10000 ms of clock passed since the last send, and then the send time is recorded; consecutive sends are more than 10 s apart; only the progress sent, the send time and the send log may change |
| VlcPlayer.VlcPlayerActivity.SwitchChapter | android/app/src/main/java/play/teamg/store/VLCPlayerActivity.java:341-345 | release the current player, then play the given URL from position 0 on a new player |
| VlcPlayer.VlcPlayerActivity.PlayNextEpisode | android/app/src/main/java/play/teamg/store/VLCPlayerActivity.java:315-351 | moves to the chapter after the first one whose URL equals the current URL, releasing the old player with its final update and starting the new chapter at position 0 on a fresh player (views, fit-screen mode, media, play); with no, empty or exhausted chapters or an unknown URL nothing changes |
| VlcPlayer.NextChapterUrl | android/app/src/main/java/play/teamg/store/VLCPlayerActivity.java:315-351 | a next chapter exists exactly when some chapter other than the last holds the current URL, and it is the one right after the first such chapter |
| VlcPlayer.VlcPlayerActivity.OnEndReached | android/app/src/main/java/play/teamg/store/VLCPlayerActivity.java:282-287 | sends a completed progress update first; then, when a chapter follows the first one holding the current URL, releases the player (with its final update) and starts that chapter on a fresh player at position 0; otherwise nothing else changes |
| VlcPlayer.VlcPlayerActivity.GoToPreviousEpisode | android/app/src/main/java/play/teamg/store/VLCPlayerActivity.java:427-447 | moves to the previous chapter only when the current URL is found at an index above 0; otherwise nothing changes |
| VlcPlayer.VlcPlayerActivity.GoToNextEpisode | android/app/src/main/java/play/teamg/store/VLCPlayerActivity.java:449-469 | moves to the next chapter only when the current URL is found and is not the last one; otherwise nothing changes |
| VlcPlayer.VlcPlayerActivity.OnChapterPicked | android/app/src/main/java/play/teamg/store/VLCPlayerActivity.java:577-583 | a pick switches to that chapter only when its index lies inside the chapter list |
| VlcPlayer.VlcPlayerActivity.ToggleScreenLock | android/app/src/main/java/play/teamg/store/VLCPlayerActivity.java:471-483 | the lock flag flips |
| VlcPlayer.VlcPlayerActivity.CycleAspectRatio | android/app/src/main/java/play/teamg/store/VLCPlayerActivity.java:527-552 | without a player nothing changes; otherwise the index advances by one modulo the four modes and that mode is applied to the player; only the index and the engine calls may change |
| VlcPlayer.VlcPlayerActivity.OnControl | android/app/src/main/java/play/teamg/store/VLCPlayerActivity.java:761-791 | without a player every action is ignored; play, pause and stop reach the player, stop also finishes, seek applies only a position of at least 0 (a missing one reads as -1), other actions do nothing; only the engine calls and `finishing` may change |
| VlcPlayer.VlcPlayerActivity.OnFinishBroadcast | android/app/src/main/java/play/teamg/store/VLCPlayerActivity.java:800-817 | both finish actions send the position when there is a player, then finish |
| VlcPlayer.SplitTime | android/app/src/main/java/play/teamg/store/VLCPlayerActivity.java:503-509 | minutes and seconds are below 60 and hours, minutes and seconds add back up to the whole seconds of the time |
| VlcPlayer.Pad2 | android/app/src/main/java/play/teamg/store/VLCPlayerActivity.java:508 | %02d yields only digits, at least two of them, exactly two below 100 |
| VlcPlayer.Pad2RoundTrip | android/app/src/main/java/play/teamg/store/VLCPlayerActivity.java:508 | reading the %02d digits back gives the number |
| VlcPlayer.FormatTimeShortForm | android/app/src/main/java/play/teamg/store/VLCPlayerActivity.java:503-509 | under one hour the text is mm:ss, and its two fields read back as the minutes and seconds |
| VlcPlayer.FormatTimeLongForm | android/app/src/main/java/play/teamg/store/VLCPlayerActivity.java:503-509 | from one hour on the text is h:mm:ss, and its fields read back as the hours, minutes and seconds |
| VlcPlayerFinal.SeekForwardTarget | android/app/src/main/java/play/teamg/store/VLCPlayerActivity_FINAL.java:168-174 | the new time is the engine time plus the step in milliseconds, with no upper clamp |
| VlcPlayerFinal.SeekBackwardTarget | android/app/src/main/java/play/teamg/store/VLCPlayerActivity_FINAL.java:175-181 | the new time is the engine time minus the step, never below 0, and is 0 or exactly that difference; it never moves forward |
| VlcPlayerFinal.StartSeekMs | android/app/src/main/java/play/teamg/store/VLCPlayerActivity_FINAL.java:137-139 | the start seek is startTime * 1000 cut to a whole number of milliseconds, never negative |
| VlcPlayerFinal.VlcFinalActivity.constructor | android/app/src/main/java/play/teamg/store/VLCPlayerActivity_FINAL.java:24-38 | before onCreate: not finishing, no player, no library, no runnable, no receiver, no loop |
| VlcPlayerFinal.VlcFinalActivity.StopProgressUpdates | android/app/src/main/java/play/teamg/store/VLCPlayerActivity_FINAL.java:231-236 | the scheduled runnable, if any, is cancelled and no progress loop remains |
| VlcPlayerFinal.VlcFinalActivity.StartProgressUpdates | android/app/src/main/java/play/teamg/store/VLCPlayerActivity_FINAL.java:216-229 | the old runnable is cancelled before a new one is posted, so exactly one progress loop is live |
| VlcPlayerFinal.VlcFinalActivity.SendProgressUpdate | android/app/src/main/java/play/teamg/store/VLCPlayerActivity_FINAL.java:238-253 | without a player nothing is sent; otherwise one VLC_PROGRESS_UPDATE whose currentTime and duration are the engine time and length in milliseconds divided by 1000 |
| VlcPlayerFinal.VlcFinalActivity.ProgressTick | android/app/src/main/java/play/teamg/store/VLCPlayerActivity_FINAL.java:219-227 | while the player plays, a tick sends one non-completed update with the engine time and length and reposts itself; otherwise that loop ends without sending |
| VlcPlayerFinal.VlcFinalActivity.FinishAndCleanup | android/app/src/main/java/play/teamg/store/VLCPlayerActivity_FINAL.java:264-332 | runs its body on the first call only; later calls change nothing; afterwards there is no player, no library, no runnable, and the activity is finished |
| VlcPlayerFinal.VlcFinalActivity.Cleanup | android/app/src/main/java/play/teamg/store/VLCPlayerActivity_FINAL.java:270-331 | cancels progress, stops the player only if it is playing, detaches and releases any player, releases the library, unregisters all three receivers and finishes |
| VlcPlayerFinal.VlcFinalActivity.InitializeVlc | android/app/src/main/java/play/teamg/store/VLCPlayerActivity_FINAL.java:84-145 | on success a new library and player are created, the views attached, the media set and played, then a seek only for a positive startTime; an exception while creating the library, the player or afterwards ends in finishAndCleanup, which releases exactly what was created |
| VlcPlayerFinal.VlcFinalActivity.FailInitialization | android/app/src/main/java/play/teamg/store/VLCPlayerActivity_FINAL.java:93-143 | up to the exception only the library, or the library and the player, exist; the catch block releases each of them, detaching the player first, and leaves the activity finished with no receiver |
| VlcPlayerFinal.FailedInitReleases | android/app/src/main/java/play/teamg/store/VLCPlayerActivity_FINAL.java:93-143 | every library and player created by a failed initialization is released, and every such player is detached |
| VlcPlayerFinal.VlcFinalActivity.OnCreate | android/app/src/main/java/play/teamg/store/VLCPlayerActivity_FINAL.java:41-82 | EXIT or a missing URL finishes without initializing; otherwise it initializes, then registers the three receivers even after a failed initialization |
| VlcPlayerFinal.VlcFinalActivity.OnCreateCorrected | android/app/src/main/java/play/teamg/store/VLCPlayerActivity_FINAL.java:41-82 | like OnCreate, but receivers are registered only while the activity is not finishing, so a finishing activity holds none |
| VlcPlayerFinal.VlcFinalActivity.OnCommand | android/app/src/main/java/play/teamg/store/VLCPlayerActivity_FINAL.java:149-184 | a null command changes nothing; stop runs finishAndCleanup, with its cleanup calls unless cleanup already ran, leaving no player and no library; pause, resume and the seeks reach the player only when there is one, with 10 seconds as the default step; any other command makes no call; no command sends progress |
| VlcPlayerFinal.VlcFinalActivity.OnFinishOrKill | android/app/src/main/java/play/teamg/store/VLCPlayerActivity_FINAL.java:187-204 | both receivers run finishAndCleanup, making its cleanup calls unless cleanup already ran and leaving no player and no library; the KILL_VLC_NOW receiver then kills the process |
| VlcPlayerFinal.VlcFinalActivity.OnPlaying | android/app/src/main/java/play/teamg/store/VLCPlayerActivity_FINAL.java:108-111 | Playing starts the progress loop, and exactly one loop is live |
| VlcPlayerFinal.VlcFinalActivity.OnPaused | android/app/src/main/java/play/teamg/store/VLCPlayerActivity_FINAL.java:112-115 | Paused stops the progress loop |
| VlcPlayerFinal.VlcFinalActivity.OnStopped | android/app/src/main/java/play/teamg/store/VLCPlayerActivity_FINAL.java:116-120 | Stopped sends one VLC_STOPPED broadcast, sends no progress, and terminates through finishAndCleanup |
| VlcPlayerFinal.VlcFinalActivity.OnEncounteredError | android/app/src/main/java/play/teamg/store/VLCPlayerActivity_FINAL.java:126-129 | EncounteredError terminates through finishAndCleanup with no broadcast of any kind |
| VlcPlayerFinal.VlcFinalActivity.OnEndReached | android/app/src/main/java/play/teamg/store/VLCPlayerActivity_FINAL.java:121-125 | EndReached sends one completed update with time and length when there is a player, then terminates, releasing the player and library unless cleanup already ran |
| VlcPlayerFinal.VlcFinalActivity.OnNewIntent | android/app/src/main/java/play/teamg/store/VLCPlayerActivity_FINAL.java:335-342 | an EXIT extra runs finishAndCleanup, making its cleanup calls unless cleanup already ran and leaving no player and no library; any other intent changes neither the calls, the player, the library nor the finishing flag |
| VlcPlayerFinal.VlcFinalActivity.OnPause | android/app/src/main/java/play/teamg/store/VLCPlayerActivity_FINAL.java:345-352 | a playing player is paused, and the progress loop stops in every case |
| VlcPlayerFinal.VlcFinalActivity.OnResume | android/app/src/main/java/play/teamg/store/VLCPlayerActivity_FINAL.java:355-361 | a player that is not playing is told to play; nothing else |
| VlcPlayerFinal.VlcFinalActivity.OnStopDestroyOrBack | android/app/src/main/java/play/teamg/store/VLCPlayerActivity_FINAL.java:364-383 | onStop, onDestroy and onBackPressed all end with no player and no library; the first cleanup makes its calls and unregisters the receivers, and a later one makes no call and leaves the receivers as they were |
| VlcPlayerFinal.FailedStartLeaksReceivers | android/app/src/main/java/play/teamg/store/VLCPlayerActivity_FINAL.java:74-78 | as written, a start whose initialization throws, followed by onDestroy, leaves all three receivers registered |
| VlcPlayerFinal.FailedStartCorrected | android/app/src/main/java/play/teamg/store/VLCPlayerActivity_FINAL.java:74-78 | with the corrected onCreate, the same sequence leaves no receiver registered |
| ExoPlayer.MediaSourceFor | android/app/src/main/java/play/teamg/store/ExoPlayerActivity.java:143-158 | HLS exactly when the lower-cased URL contains ".m3u8"; DASH exactly when it contains ".mpd" and not ".m3u8"; progressive otherwise |
| ExoPlayer.MediaSourceIgnoresCase | android/app/src/main/java/play/teamg/store/ExoPlayerActivity.java:144 | the source choice is the same for a URL and its lower-cased form |
| ExoPlayer.ExoPlayerActivity.InitializePlayer | android/app/src/main/java/play/teamg/store/ExoPlayerActivity.java:108-165 | with a player nothing changes; without one a new player is built, given the chosen media source, prepared and set to play when ready |
| ExoPlayer.ExoPlayerActivity.constructor | android/app/src/main/java/play/teamg/store/ExoPlayerActivity.java:71-106 | a null video_url finishes with no player, no receiver and no call; otherwise the receiver is registered and player 0 is built, given the media source for the URL, prepared and played, with the given start time pending |
| ExoPlayer.ExoPlayerActivity.OnPlaybackStateChanged | android/app/src/main/java/play/teamg/store/ExoPlayerActivity.java:124-129 | on READY with a positive start time, seek to start * 1000 and zero the start time, so the seek happens once; otherwise nothing; only the engine calls, the start time and the seek count may change |
| ExoPlayer.ExoPlayerActivity.ReleasePlayer | android/app/src/main/java/play/teamg/store/ExoPlayerActivity.java:229-234 | a held player is released exactly once and forgotten; with none nothing is called |
| ExoPlayer.ExoPlayerActivity.OnStart | android/app/src/main/java/play/teamg/store/ExoPlayerActivity.java:168-173 | above SDK 23 an existing player is kept with no call, and without one a new player is built, given the source, prepared and played; at SDK 23 and below nothing changes |
| ExoPlayer.ExoPlayerActivity.OnResume | android/app/src/main/java/play/teamg/store/ExoPlayerActivity.java:176-181 | on SDK 23 and below, or without a player, the player is initialized; an existing player is kept |
| ExoPlayer.ExoPlayerActivity.OnPause | android/app/src/main/java/play/teamg/store/ExoPlayerActivity.java:184-189 | on SDK 23 and below the player is released; above it nothing changes |
| ExoPlayer.ExoPlayerActivity.OnPictureInPictureModeChanged | android/app/src/main/java/play/teamg/store/ExoPlayerActivity.java:204-207 | the controller is used exactly when not in picture-in-picture |
| ExoPlayer.ExoPlayerActivity.OnStop | android/app/src/main/java/play/teamg/store/ExoPlayerActivity.java:210-215 | unless in picture-in-picture, a held player gets exactly one release call and is dropped, and nothing else changes; in picture-in-picture nothing changes |
| ExoPlayer.ExoPlayerActivity.OnDestroy | android/app/src/main/java/play/teamg/store/ExoPlayerActivity.java:219-227 | the receiver is unregistered and a held player gets exactly one release call and is dropped; nothing else changes |
| ExoPlayer.ExoPlayerActivity.OnBackPressed | android/app/src/main/java/play/teamg/store/ExoPlayerActivity.java:237-240 | the activity finishes and a held player gets exactly one release call and is dropped; nothing else changes |
| ExoPlayer.ExoPlayerActivity.OnControl | android/app/src/main/java/play/teamg/store/ExoPlayerActivity.java:45-68 | without a player nothing happens; pause, play and stop reach the player, stop also finishes, and seek goes to the position in seconds times 1000, a missing position reading as 0; only the engine calls and `finished` may change |
| PlayerPlugin.FlattenChapters | android/app/src/main/java/play/teamg/store/VideoPlayerPlugin.java:52-82 | a chapter without title or url aborts the loop and no list is attached; otherwise the four lists have one entry per chapter in input order, with its title, url and season (1 when it has none), and the per-season number restarts at 1 on a season change and otherwise counts up |
| PlayerPlugin.FlattenedUnique | android/app/src/main/java/play/teamg/store/VideoPlayerPlugin.java:52-82 | the four lists are determined by the chapters alone: any two lists that describe the same chapters are equal |
| PlayerPlugin.PlayVideo | android/app/src/main/java/play/teamg/store/VideoPlayerPlugin.java:26-113 | a missing url is rejected with "URL is required"; title defaults to "Video" and start time to 0; VLC is launched first, its chapter lists being exactly the flattening of the chapters when every chapter is readable; ExoPlayer gets the same url, title and start time and no chapters only when VLC fails, and the call is rejected when both fail |
| PlayerPlugin.SendPlayerControl | android/app/src/main/java/play/teamg/store/VideoPlayerPlugin.java:115-124 | the control broadcast carries the action, and a position exactly when it is positive |
| PlayerUtils.GetPlayableUrl | src/utils/playerUtils.js:23-35 | a missing or non-object item throws "Se requiere un objeto item válido"; a url that is not a string or is blank throws "URL inválida o vacía"; it succeeds exactly otherwise, with url.trim(), a non-empty slice of the url with no white space at either end |
| PlayerUtils.TrimmedUrl | src/utils/playerUtils.js:29-34 | a string url fails exactly when it is all white space; otherwise the result is its trim(), non-empty and with no white space at either end |
| PlayerUtils.ProxyIgnored | src/utils/playerUtils.js:23-35 | the proxy base argument never changes the result |
| PlayerUtils.PlayableUrlIdempotent | src/utils/playerUtils.js:29-34 | a returned url fed back in comes back unchanged |
| Text.BlankIffAllSpace | src/utils/playerUtils.js:29 | trim() gives the empty string exactly for strings made only of white space |
| Text.TrimShape | src/utils/playerUtils.js:34 | trim() returns a slice of its input with no white space at either end, and what it cut before and after that slice is white space only |
| Text.TrimUnique | src/utils/playerUtils.js:34 | trim() is the only string of that shape: any slice of the input with only white space cut before and after it and none at its own ends equals trim() of it |
| Text.TrimIdempotent | src/utils/playerUtils.js:34 | trimming twice is trimming once |
| SearchUtils.NormalizeSearchText | src/utils/searchUtils.js:6-13 | anything but a non-empty string gives ""; a string gives its lower-cased, accent-stripped form, which holds no upper-case letter and no combining mark |
| Text.NormalizeIdempotent | src/utils/searchUtils.js:9-12 | normalising an already normalised text changes nothing |
| SearchUtils.FilterBySearchIgnoreAccents | src/utils/searchUtils.js:22-36 | a falsy term or an empty list returns the items unchanged; otherwise exactly the items with a listed non-empty string field whose normalised form contains the normalised term, in their order and each as often as in the input |
| SearchUtils.NonStringTermKeepsStringItems | src/utils/searchUtils.js:23-33 | a truthy term that is not a string normalises to "", so every item with a non-empty string in a listed field is kept |
| DataCache.Lookup | src/hooks/useDataCache.js:13-25 | get yields null for an expired entry, a missing entry and a falsy value, and otherwise the stored value |
| DataCache.Cache.constructor | src/hooks/useDataCache.js:9-10 | both maps start empty |
| DataCache.Cache.Get | src/hooks/useDataCache.js:13-25 | returns what Lookup says; an expired entry is deleted from both maps, and nothing else changes |
| DataCache.Cache.Set | src/hooks/useDataCache.js:27-30 | stores the value and the current time under the key, leaving other keys alone |
| DataCache.Cache.Clear | src/hooks/useDataCache.js:32-40 | a truthy key removes that key from both maps; no key empties both |
| DataCache.SetThenGet | src/hooks/useDataCache.js:18-24 | a truthy value set at a non-zero time reads back for five minutes, the exact five-minute mark included |
| DataCache.ExpiresAfterFiveMinutes | src/hooks/useDataCache.js:11-18 | one millisecond past five minutes the same entry reads as null |
| DataCache.FalsyReadsAsNull | src/hooks/useDataCache.js:24 | a falsy value reads as null even while fresh |
| DataCache.OtherKeysUnaffected | src/hooks/useDataCache.js:19-35 | setting or deleting one key never changes what another key reads |
| DataCache.GetMissing | src/hooks/useDataCache.js:13-25 | a key never stored reads as null and leaves the cache as it was |
| VideoProgress.SavePayload | src/services/videoProgress.js:27-39 | no body when lastTime is not a number; otherwise lastTime always, and lastChapter, lastSeason, completed and progress each exactly when defined, with no other key |
| VideoProgress.SavePayloadRoundTrip | src/services/videoProgress.js:35-39 | reading the body back gives every argument that was passed, with its value |
| VideoProgress.SaveProgress | src/services/videoProgress.js:25-51 | no request and null when lastTime is not a number; otherwise one PUT to /api/videos/{id}/progress whose body reads back as the arguments, resolving to the server's watchProgress, or null when the request fails |
| StreamProxy.ProxiedStreamUrl | src/utils/streamProxy.js:17-38 | "" for a falsy URL; the URL unchanged when the proxy is off, explicitly or by auto-detection when the flag is null; with the proxy on, a URL holding a code point above 255 (where btoa throws) comes back unchanged, and any other starts with the proxy endpoint |
| StreamProxy.ProxiedIsEncoded | src/utils/streamProxy.js:29-33 | with the proxy on and a Latin-1 URL, the result is the proxy endpoint followed by btoa of the URL |
| StreamProxy.ProxiedUrlRoundTrip | src/utils/streamProxy.js:29-37 | for a Latin-1 URL with the proxy on, the result starts with the proxy endpoint and decoding the rest gives back the URL's code points |
| StreamProxy.HttpsUsesProxy | src/utils/streamProxy.js:43-63 | every URL that starts with "https://" in any letter case uses the proxy |
| Base64.BtoaDecode | src/utils/streamProxy.js:31 | btoa succeeds exactly on Latin-1 strings, and decoding its output gives back their code points |
| Base64.Btoa | src/utils/streamProxy.js:31 | btoa yields a string exactly when every character is at most U+00FF; otherwise it throws |
| Base64.EncodeDecode | src/utils/streamProxy.js:31 | decoding the base64 text of a byte sequence gives back the bytes |
| Episodes.NextEpisode | src/hooks/useElectronMpvProgress.js:63-76 | the next chapter of the same season when that season has more than chapter+1 chapters; otherwise chapter 0 of the following season when there is one; none exactly when neither exists |
| Episodes.NextMayNameEmptySeason | src/hooks/useElectronMpvProgress.js:71-75 | the following season is chosen without checking its chapter count, so the rule can name chapter 0 of an empty season |
| Episodes.NextIsFlatSuccessor | src/hooks/useElectronMpvProgress.js:63-76 | when no season is empty, the next position is the next entry of the flattened chapter list, and there is none only after the last entry |
| MpvProgress.IntervalOf | src/hooks/useElectronMpvProgress.js:16 | opts.intervalMs when present and non-zero, otherwise 20000; never 0 |
| MpvProgress.TimePayload | src/hooks/useElectronMpvProgress.js:23-31 | the time-pos body holds lastTime as the whole seconds of the position (0 when it is not a number), no completed flag, and the chapter and season exactly when the current chapter is known |
| MpvProgress.EndedPayload | src/hooks/useElectronMpvProgress.js:52-57 | the mpv-ended body holds completed=true, no lastTime, and the chapter and season exactly when the current chapter is known |
| MpvProgress.MpvProgressHook.constructor | src/hooks/useElectronMpvProgress.js:12-16 | the handlers are subscribed exactly when there is a video id and the bridge exposes `on`; nothing is sent yet |
| MpvProgress.MpvProgressHook.OnTimePos | src/hooks/useElectronMpvProgress.js:18-32 | an event less than the interval after the last successful send is dropped; otherwise one PUT with the position is sent and left pending, and the window does not move |
| MpvProgress.MpvProgressHook.OnTimePosSettled | src/hooks/useElectronMpvProgress.js:33-38 | when a pending PUT settles, the window restarts at the completion time only if it succeeded |
| MpvProgress.MpvProgressHook.OnEnded | src/hooks/useElectronMpvProgress.js:49-80 | sends completed=true, then, only if that PUT succeeded and there is a handler, seasons and a current chapter, navigates once to the next episode when there is one |
| MpvProgress.FailedSendIsRetried | src/hooks/useElectronMpvProgress.js:21-34 | a failed send does not use up the window: a second event at the same instant is sent again |
| MpvProgress.PendingSendDoesNotThrottle | src/hooks/useElectronMpvProgress.js:21-34 | while a PUT is pending, a second event past the interval is sent too, however soon it follows |
| MpvProgress.SettledSendThrottles | src/hooks/useElectronMpvProgress.js:21-34 | after a PUT succeeds, an event less than the interval after its completion is dropped |
| ProgressReporter.IntervalOf | src/hooks/useProgressReporter.js:13 | opts.intervalMs when present and non-zero, otherwise 20000 |
| ProgressReporter.MinDeltaOf | src/hooks/useProgressReporter.js:14 | opts.minDeltaSeconds when present and non-zero, otherwise 5 |
| ProgressReporter.ReportPayload | src/hooks/useProgressReporter.js:21-29 | the body holds lastTime as whole seconds and the completed flag, and progress exactly when the whole-second duration is non-zero, capped at 1 and not negative for a forward position |
| ProgressReporter.ProgressReporterHook.constructor | src/hooks/useProgressReporter.js:10-16 | the listeners are attached exactly when the element and a video id exist; both markers start at 0 and no PUT is pending |
| ProgressReporter.ProgressReporterHook.Send | src/hooks/useProgressReporter.js:18-31 | always sends one PUT and leaves it pending with the whole-second position it reports; the markers do not move |
| ProgressReporter.ProgressReporterHook.Settle | src/hooks/useProgressReporter.js:31-39 | when a pending PUT settles it is no longer pending; on success the markers become the completion time and the position that PUT sent, on failure they stay |
| ProgressReporter.ProgressReporterHook.OnTimeUpdate | src/hooks/useProgressReporter.js:42-52 | sends exactly when the position is at least minDelta seconds from the last recorded one and the interval has passed since the last recorded send |
| ProgressReporter.ProgressReporterHook.OnPause | src/hooks/useProgressReporter.js:54-74 | pause and the initial ping always send completed=false |
| ProgressReporter.ProgressReporterHook.OnEnded | src/hooks/useProgressReporter.js:55 | ended always sends completed=true |
| ProgressReporter.ProgressReporterHook.OnSeeking | src/hooks/useProgressReporter.js:57-65 | a seek sends at once only when it jumps more than 10 s from the last sent position |
| ProgressReporter.PendingSendDoesNotThrottle | src/hooks/useProgressReporter.js:42-52 | while a PUT is pending the markers have not moved, so a second due timeupdate is sent too |
| ProgressReporter.SettledSendThrottles | src/hooks/useProgressReporter.js:31-52 | after a PUT of position t succeeds, a timeupdate less than minDelta seconds from t sends nothing |
| VideoPlayer.BackgroundSeekSeconds | src/components/VideoPlayer.jsx:266-278 | detail.seconds when present and non-zero, otherwise 10; never 0 |
| VideoPlayer.VideoPlayerView.constructor | src/components/VideoPlayer.jsx:16-44 | the native listener is installed exactly on android-vlc with an item id, where a positive start time becomes the current and last saved time; the navigation flag starts clear |
| VideoPlayer.VideoPlayerView.Rerender | src/components/VideoPlayer.jsx:298-302 | new props are taken, and the navigation flag is cleared exactly when the URL, the item id or the chapter index changed |
| VideoPlayer.VideoPlayerView.SaveProgress | src/components/VideoPlayer.jsx:46-62 | saves only a positive time for a present item, with the current season and chapter indices and the completed flag, and then records it as the last saved time |
| VideoPlayer.VideoPlayerView.NavigateNext | src/components/VideoPlayer.jsx:78-93 | calls onNextEpisode once with the next position by the next-episode rule, and reports whether there was one |
| VideoPlayer.VideoPlayerView.HandleTimeUpdate | src/components/VideoPlayer.jsx:64-96 | a missing time counts as 0 and a missing flag as false; the time becomes the current and last saved time; a completed event saves with completed=true and then navigates by the next-episode rule |
| VideoPlayer.VideoPlayerView.OnEnded | src/components/VideoPlayer.jsx:854-878 | ignored once a navigation was made for the current source; otherwise navigates by the next-episode rule and raises the flag exactly when it moved |
| VideoPlayer.VideoPlayerView.StartAndroidPlayback | src/components/VideoPlayer.jsx:158-213 | nothing while unmounting; on android-vlc with a URL and autoplay, plays with the title (default "Video"), the start time (default 0) and every chapter of every season, and once the player started saves the start position with completed=false |
| VideoPlayer.EndedTwice | src/components/VideoPlayer.jsx:854-878 | two ended events for the same source lead to at most one navigation |
| Watch.Counts | src/pages/Watch.jsx:100 | one chapter count per season, equal to that season's chapter list length |
| Watch.ValidPositionIsExistingChapter | src/pages/Watch.jsx:177-204 | a position is valid for the next-episode rule exactly when seasons[s].chapters[c] exists |
| Watch.Endpoint | src/pages/Watch.jsx:67-86 | a missing id or type is the "Falta información" error; a channel loads /api/channels/id/{id}; one of the nine video types loads /api/videos/{id}, with ?useTrial=true when asked; any other type is the "no reconocido" error |
| Watch.ResolveChapter | src/pages/Watch.jsx:155-227 | the step-by-step chapter-resolution effect returns exactly ChapterChoice for the item |
| Watch.ChoiceIsExistingChapter | src/pages/Watch.jsx:155-227 | films and channels skip resolution and nothing else does; a found chapter always exists; no chapter is found only when neither the navigation state, the stored progress when continuing, nor the first chapter of the first season names one |
| Watch.NavigationBeatsProgress | src/pages/Watch.jsx:174-186 | a continue-watching state naming an existing chapter wins whatever the stored progress says, and carries its own start time |
| Watch.ProgressIgnoredWithoutContinue | src/pages/Watch.jsx:186 | stored progress is consulted only when continuing |
| Watch.AllChapters | src/pages/Watch.jsx:101 | the flattened chapter list has one entry per chapter of every season |
| Watch.Playable | src/pages/Watch.jsx:276-282 | the chosen URL is played as its trim() when getPlayableUrl accepts it, non-empty and with no white space at either end; otherwise the "URL inválida o vacía" exception escapes |
| Watch.SelectUrl | src/pages/Watch.jsx:230-294 | waits while loading or, for a series, without a chosen chapter; a chapter without URL and an item without URL are the two errors; otherwise the URL goes through getPlayableUrl, and a played URL is non-empty with no white space at either end |
| Watch.NextEpisodeNavigation | src/pages/Watch.jsx:512-514 | handleNextEpisode reopens the page in continue-watching mode at the given position with no start time |
| Watch.NextEpisodeIsPlayed | src/pages/Watch.jsx:512-514 | after an episode ends, the reopened page plays the chapter the next-episode rule chose whenever it exists |
| Watch.NextIntoEmptySeasonRestarts | src/pages/Watch.jsx:204-213 | when the following season is empty, the rule still moves to it, and the reopened page falls back to the first chapter of the first season |
| Home.Featured | src/pages/Home.jsx:148-198 | a featured row holds the first 15 items of a fulfilled array result (all of them when fewer), and is empty when the request failed |
| Home.PickList | src/pages/Home.jsx:410-416 | search uses a category's full list when it is non-empty and its featured row otherwise |
| Home.Tag | src/pages/Home.jsx:418-425 | every item of a category appears once, in order, labelled with the category name and item type |
| Home.TagRecent | src/pages/Home.jsx:426 | a recently added item is labelled with its own `tipo` (else "contenido") and typed by its `itemType`, else its `tipo` |
| Home.TagContinue | src/pages/Home.jsx:427 | a continue-watching item is labelled "continuar viendo" and typed by its `itemType`, else its `tipo` |
| Home.SearchEntries | src/pages/Home.jsx:418-428 | the search list has exactly one entry per item of the nine lists, channels first |
| Home.Key | src/pages/Home.jsx:431 | the deduplication key is the item's id when truthy, else its `_id` |
| Home.UniqueEntries | src/pages/Home.jsx:431 | the deduplicated list is the sequence of values of the Map built from key/entry pairs |
| Home.KeyedEntries | src/pages/Home.jsx:431 | every value the Map holds is stored under its own key |
| Home.UniqueEntriesDedup | src/pages/Home.jsx:431 | no two search entries share a key, every input key is kept, and the entry kept is the last one with that key |
| Home.Round | src/pages/Home.jsx:355 | Math.round lands within half a unit of its argument, halves going up |
| Home.ClickType | src/pages/Home.jsx:330 | the click type is truthy exactly when `itemType`, `tipo` or the carousel type is |
| Home.StartTime | src/pages/Home.jsx:353-355 | the start second is the rounded saved lastTime, or 0 without progress or lastTime |
| Home.ItemClick | src/pages/Home.jsx:325-380 | a click aborts without type or id; channels navigate without state; VOD state resumes only from continue-watching or past 5 s, with season and chapter only for series |
| Home.ResumeDefaultsToFirstEpisode | src/pages/Home.jsx:356-373 | a series resumed without saved season or chapter starts at season 0, chapter 0, at the rounded second |
| Home.TvSections | src/pages/Home.jsx:657-667 | the TV rows are the non-empty rows in their fixed order, each as often as in the input, and no empty row |
| Home.TvItemType | src/pages/Home.jsx:669-680 | the type comes from the first kind word the row title contains, falling back to "movie" (the continue row takes the item's `tipo`, else its `itemType`, else "movie") |
| Home.TvSelectItem | src/pages/Home.jsx:669-683 | a TV selection is handleItemClick with the row's type, and aborts only when the item has no id |
| Home.ChannelRowType | src/pages/Home.jsx:659-674 | the live-channel row opens channels |
| Home.SeriesRowType | src/pages/Home.jsx:661-675 | the series row opens series |
| Home.MoviesRowType | src/pages/Home.jsx:660-680 | the featured-movies row opens movies |
| Home.RecentRowType | src/pages/Home.jsx:668-680 | the type a selection in the recently-added row passes to handleItemClick is "movie", because the title names no kind and does not contain "Continuar"; handleItemClick still prefers the item's own `itemType` or `tipo` |
| Home.ContinueRowType | src/pages/Home.jsx:658-680 | the continue-watching row uses the item's `tipo`, else its `itemType`, else "movie" |
| RowTitles.MoviesTitleNamesNoKind | src/pages/Home.jsx:660-680 | "Películas Destacadas" contains none of the kind words the TV type lookup tests |
| RowTitles.RecentTitleNamesNoKind | src/pages/Home.jsx:666-680 | "Recién Agregados" contains none of the kind words the TV type lookup tests |
| RowTitles.ContinueTitleNamesNoKind | src/pages/Home.jsx:658-679 | "Continuar Viendo" contains none of the kind words checked before "Continuar" |
| MyList.Add | src/context/MyListContext.jsx:22-28 | adding appends the item at the end and keeps the old list as prefix, even when its id is already listed |
| MyList.Remove | src/context/MyListContext.jsx:30-36 | removing keeps exactly the items whose id differs, in order and each as often as in the list |
| MyList.AddedIsIn | src/context/MyListContext.jsx:22-40 | after adding an item, isInMyList answers true for its id |
| MyList.RemovedIsNotIn | src/context/MyListContext.jsx:30-40 | after removing an id, isInMyList is false for it and unchanged for every other id |
| MyList.RemoveAbsent | src/context/MyListContext.jsx:30-31 | removing an id that is not listed leaves the list unchanged |
| MyList.AddThenRemove | src/context/MyListContext.jsx:22-31 | adding an item then removing its id equals removing the id alone |
| MyList.StorageKey | src/context/MyListContext.jsx:13-26 | a signed-in user's list is stored under "myList_" followed by the user id; nothing is stored without a user |
| AdminPanel.AllChaptersUpdate | src/pages/AdminPanel.jsx:593-603 | replacing one season's chapters replaces exactly those chapters in the flattened list |
| AdminPanel.AllChaptersCount | src/pages/AdminPanel.jsx:593-603 | the flattened count changes by the difference in that season's chapter count |
| AdminPanel.DropOnChapterResult | src/pages/AdminPanel.jsx:593-603 | a drop on a chapter keeps the number of seasons and moves the dragged chapter to the target index |
| AdminPanel.DropOnChapterPermutes | src/pages/AdminPanel.jsx:593-603 | a drop on a chapter neither loses nor duplicates a chapter |
| AdminPanel.DropWithinSeason | src/pages/AdminPanel.jsx:596-602 | within one season a chapter dropped on a later chapter lands just after it, on an earlier one just before it |
| AdminPanel.DropOnSeasonResult | src/pages/AdminPanel.jsx:612-618 | a drop on a season keeps the number of seasons and appends the dragged chapter to the destination |
| AdminPanel.DropOnSeasonPermutes | src/pages/AdminPanel.jsx:612-618 | a drop on a season loses or duplicates no chapter, and the dragged chapter ends the destination season |
| AdminPanel.VodEditor.constructor | src/pages/AdminPanel.jsx:385-415 | the editor starts from the given seasons |
| AdminPanel.VodEditor.AddSeason | src/pages/AdminPanel.jsx:489-498 | appends an empty season numbered and titled one past the count |
| AdminPanel.VodEditor.RemoveSeason | src/pages/AdminPanel.jsx:500-505 | drops the season at that index, others keep their numbers; an index out of range changes nothing |
| AdminPanel.VodEditor.AddChapter | src/pages/AdminPanel.jsx:515-528 | appends "Capítulo k" with an empty URL to that season, k one past its count |
| AdminPanel.VodEditor.RemoveChapter | src/pages/AdminPanel.jsx:530-537 | `splice(chapterIndex, 1)`: removes one chapter at the normalised start, or none past the end |
| AdminPanel.VodEditor.MoveChapterUp | src/pages/AdminPanel.jsx:548-558 | swaps a chapter with the previous one, does nothing for the first, and keeps the chapters as a permutation |
| AdminPanel.VodEditor.MoveChapterDown | src/pages/AdminPanel.jsx:560-570 | swaps a chapter with the next one, does nothing for the last, and keeps the chapters as a permutation |
| AdminPanel.VodEditor.DropOnChapter | src/pages/AdminPanel.jsx:585-604 | does nothing without a drag or onto the dragged chapter itself, otherwise applies the drop, keeping the chapters as a permutation |
| AdminPanel.VodEditor.DropOnSeason | src/pages/AdminPanel.jsx:606-619 | does nothing without a drag, otherwise applies the drop on the season, keeping the chapter count |
| AdminPanel.FallbackLosesSource | src/pages/AdminPanel.jsx:577-589 | without dragInfo, the payload written as `{ seasonIndex, chapterIndex }` is read as `{ fromSeason, fromChapter }`, so the drop's source season and chapter are undefined, whereas with dragInfo they name the dragged chapter |
| AdminPanel.FallbackRecoversSource | src/pages/AdminPanel.jsx:573-577 | read under the names the drag wrote, the payload gives back the dragged chapter, the same source as dragInfo |
| AdminPanel.SeasonErrorNone | src/pages/AdminPanel.jsx:434-446 | no season message exactly when every season has chapters and every chapter has a title and a URL |
| AdminPanel.VodAcceptedIff | src/pages/AdminPanel.jsx:422-454 | a series-like item is accepted iff it has title, type, a season, no empty season and no incomplete chapter; a film iff it has title, URL and type |
| AdminPanel.ValidateVod | src/pages/AdminPanel.jsx:422-454 | the loop with early returns yields the message of the first failed check, or none |
| AdminPanel.PlansToSend | src/pages/AdminPanel.jsx:455 | the plans sent are known plans only, no more than given |
| AdminPanel.PlansToSendMembership | src/pages/AdminPanel.jsx:455 | a plan is sent iff it is known and chosen, "gplay" also when "basico" was chosen |
| AdminPanel.PlansForForm | src/pages/AdminPanel.jsx:390-408 | the plans put in the edit form are all known plans |
| AdminPanel.GenresAreClean | src/pages/AdminPanel.jsx:460 | every genre sent is non-empty, trimmed and free of commas |
| AdminPanel.Without | src/pages/AdminPanel.jsx:624-625 | the filtered selection lacks the id and keeps every other id |
| AdminPanel.ToggleFlips | src/pages/AdminPanel.jsx:622-628 | selecting a VOD flips its membership, leaves other ids alone, and twice restores a selection without it |
| AdminPanel.TotalPages | src/pages/AdminPanel.jsx:343-344 | the page count is the least number of 50-item pages covering the total (missing total read as 0) |
| Animes.Entry | src/pages/Animes.jsx:76-83 | an entry is stored under the video's `_id`, else its `id`, with the video's own title when present and never an empty title |
| Animes.MergeAnimes | src/pages/Animes.jsx:46-89 | the forEach over new then old animes (a failed request read as empty) builds exactly the first-wins deduplication |
| Animes.UniqueKeysDistinct | src/pages/Animes.jsx:74-87 | the merged list has one entry per id |
| Animes.UniqueKeys | src/pages/Animes.jsx:76-77 | exactly the ids that occur get an entry; videos without an id contribute nothing |
| Animes.UniqueFirstWins | src/pages/Animes.jsx:77 | each entry comes from the first video with its id |
| Animes.NewListWins | src/pages/Animes.jsx:68-77 | an anime of the new list keeps its own entry; the old list only adds ids the new one lacks |
| Carousel.MovesStayInRange | src/components/HeroBanner.jsx:41-47 | from an index in range both moves stay in range, forward wrapping from the last to 0 and backward from 0 to the last |
| Carousel.PrevNextInverse | src/components/CoverCarousel.jsx:46-52 | a step back undoes a step forward and vice versa |
| CoverCarousel.DisplayCount | src/components/CoverCarousel.jsx:17 | the requested count is 3 or 4, and 4 exactly from 12 items on |
| CoverCarousel.Displayed | src/components/CoverCarousel.jsx:14-21 | a non-empty item list yields a sub-multiset of the items of the requested size (or all of them) and index 0; an empty one changes nothing |
| CoverCarousel.ShownCount | src/components/CoverCarousel.jsx:17-18 | all of up to three items are shown, three of up to eleven, four from twelve on |
| CoverCarousel.HandleNext | src/components/CoverCarousel.jsx:50-52 | one step forward within the shown covers, wrapping from the last to 0 |
| CoverCarousel.HandlePrev | src/components/CoverCarousel.jsx:46-48 | one step back within the shown covers, wrapping from 0 to the last |
| CoverCarousel.AutoAdvance | src/components/CoverCarousel.jsx:28-30 | the timer tick is the same step as the forward button |
| HeroBanner.NextItem | src/components/HeroBanner.jsx:39-43 | one step forward within the banner items, from the last back to the first; nothing without items |
| HeroBanner.PrevItem | src/components/HeroBanner.jsx:45-49 | one step back within the banner items, from the first to the last; nothing without items |
| HeroBanner.NextPrevInverse | src/components/HeroBanner.jsx:39-49 | a step back undoes a step forward and vice versa, also without items |
| HeroBanner.Featured | src/components/HeroBanner.jsx:17-22 | a non-empty item list yields up to three of its items (a sub-multiset) and index 0; an empty one changes nothing |
| Collections.CollectionContent | src/pages/Colecciones.jsx:59-68 | the content is the films then the series, keeping exactly the items with a collection or a name mentioning one, in order and each as often as in the input |
| Collections.FilteredContent | src/pages/Colecciones.jsx:103-113 | the filter throws exactly when a search term is given and some item has no name; otherwise it keeps exactly the items matching both the collection and the term, in order and each as often as in the input |
| Collections.TodasShowsEverything | src/pages/Colecciones.jsx:104-108 | "TODAS" with no search term shows all the content |
| Collections.FirstSaga | src/pages/Colecciones.jsx:119 | the saga found is a listed collection other than "TODAS" that the name mentions, and none is found only when the name mentions none |
| Collections.FirstSagaIsFirst | src/pages/Colecciones.jsx:119 | the saga found is the first in list order that the name mentions |
| Collections.GroupOf | src/pages/Colecciones.jsx:118-120 | an item is grouped under its collection, else the first saga its name mentions, else "Otras" |
| Collections.GroupingGroups | src/pages/Colecciones.jsx:116-125 | the pushes build exactly the grouping: each key that occurs, with its items in list order |
| Collections.GroupContent | src/pages/Colecciones.jsx:116-125 | the forEach loop builds that grouping |
| Collections.EachItemInExactlyOneGroup | src/pages/Colecciones.jsx:116-125 | each item is in its own group and in no other |
| Gemini.Kept | src/services/geminiService.js:537-545 | clearOldCache keeps exactly the entries that are not stale, with their data unchanged |
| Gemini.BoundaryEntry | src/services/geminiService.js:537-545 | an entry exactly 24 hours old is neither served nor deleted |
| Gemini.FreshAndStaleDisjoint | src/services/geminiService.js:537-545 | no entry is both served and deleted; one that is neither is exactly 24 hours old |
| Gemini.ResponseCache.constructor | src/services/geminiService.js:6 | the cache starts empty |
| Gemini.ResponseCache.Lookup | src/services/geminiService.js:42-47 | a cached response is returned exactly when its key is present and younger than 24 hours |
| Gemini.ResponseCache.Store | src/services/geminiService.js:98-101 | storing a response records it under its key with the current time, leaving other keys alone |
| Gemini.ResponseCache.ClearOldCache | src/services/geminiService.js:537-545 | the loop over the entries leaves exactly the kept entries |
| Gemini.StoredIsServed | src/services/geminiService.js:38-101 | a response stored now is served, and survives clearing, for the next 24 hours |
| Gemini.EraOf | src/services/geminiService.js:333-368 | the year buckets: from 2020, the 2010s, the 2000s, the 1990s, else classic; an unparsable year is classic |
| Gemini.EraMonotone | src/services/geminiService.js:337-361 | a later year never lands in an older era |
| Gemini.NormalizeGenre | src/services/geminiService.js:325-328 | the genre is lower-cased with its accented vowels made plain, character by character; an undefined genre stays undefined |
| Gemini.InfoGenre | src/services/geminiService.js:325-330 | the genre information is that of the normalised genre when known, else drama's |
| Gemini.AccentedGenreInfo | src/services/geminiService.js:325-330 | "Acción" gets the action information |
| Gemini.UpperCaseGenreInfo | src/services/geminiService.js:325-330 | "TERROR" gets the horror information |
| Gemini.FallbackTheme | src/services/geminiService.js:370-422 | the theme is looked up on the lower-cased genre only, the default theme exactly when that is not one of the three known keys |
| Gemini.AccentSplitsInfoAndTheme | src/services/geminiService.js:325-410 | "Acción" gets the action information but the default theme, because only the information lookup strips accents |
| MoviesPage.InsertSorted | src/pages/MoviesPage.jsx:21 | inserting into the sorted distinct list adds exactly that value |
| MoviesPage.SortDistinct | src/pages/MoviesPage.jsx:21 | `[...new Set(values.sort())]` holds exactly the values |
| MoviesPage.SortDistinctIsSorted | src/pages/MoviesPage.jsx:21 | and holds them strictly increasing, so once each |
| MoviesPage.GenreValues | src/pages/MoviesPage.jsx:16-20 | a film contributes exactly its truthy genres, whether it has one genre or a list |
| MoviesPage.UniqueGenres | src/pages/MoviesPage.jsx:14-22 | "Todas" followed by every genre of the films once, in increasing order; just "Todas" for no films |
| MoviesPage.BySection | src/pages/MoviesPage.jsx:140-146 | the section filter keeps exactly the films of the selected section (POR_GENERO also takes films without one), in order and with their multiplicity; all films without a selection |
| MoviesPage.ByGenre | src/pages/MoviesPage.jsx:147-156 | the genre filter keeps exactly the films one of whose normalised genres equals the normalised selection, in order and with their multiplicity; all films for "Todas" |
| MoviesPage.BySearch | src/pages/MoviesPage.jsx:157-163 | the search filter keeps exactly the films whose title or name contains the lower-cased trimmed term, in order and with their multiplicity |
| MoviesPage.DisplayedMovies | src/pages/MoviesPage.jsx:138-165 | the displayed films are exactly those passing section, genre and search, in order and each as often as in the input |
| MoviesPage.GenresForSection | src/pages/MoviesPage.jsx:122-135 | the genre menu is just "Todas" without a section or films, else "Todas" followed by the genres of the section's films, each once and in increasing order |
| MoviesPage.PremiumOpensEverySection | src/pages/MoviesPage.jsx:35-45 | premium opens every section; the free plan opens exactly the unrestricted ones |
| MoviesPage.NextGrid | src/pages/MoviesPage.jsx:195-199 | the grid cycles 5, 4, 3, 1 and back to 5; an unknown value restarts at 5 |
| MoviesPage.IndexOf | src/pages/MoviesPage.jsx:196 | indexOf gives the first position of the value, or -1 exactly when it is absent |
| MoviesPage.GridCycle | src/pages/MoviesPage.jsx:195-199 | four toggles come back to the starting layout |
| MoviesPage.MoviesPageState.constructor | src/pages/MoviesPage.jsx:52-60 | no section, genre "Todas", no search, no error and five columns at start |
| MoviesPage.MoviesPageState.SelectMainSection | src/pages/MoviesPage.jsx:220-231 | a plan that opens the section selects it and resets genre and search; otherwise only the plan error is set |
| MoviesPage.MoviesPageState.OnErrorTimeout | src/pages/MoviesPage.jsx:225 | when the timer of a refused selection fires, no error is shown any more |
| MoviesPage.MoviesPageState.ToggleGridView | src/pages/MoviesPage.jsx:195-199 | the column count moves to the next grid option |
| SearchBar.SearchResults | src/components/SearchBar.jsx:50-75 | a blank query gives no results; otherwise the first 20 matching items (all of them when fewer match), in order and with their multiplicity, where an item matches when the normalised query is in its name, description or genre |
| SearchBar.SearchBarState.constructor | src/components/SearchBar.jsx:33-40 | the bar starts closed, with no query, no results and the first row selected |
| SearchBar.SearchBarState.GlobalKey | src/components/SearchBar.jsx:265-276 | '/' or '?' opens the bar, and on a TV so does Ctrl+S; nothing closes it |
| SearchBar.SearchBarState.SearchInput | src/components/SearchBar.jsx:78-82 | a new query recomputes the results and resets the selection |
| SearchBar.SearchBarState.HandleKey | src/components/SearchBar.jsx:85-110 | closed, keys do nothing; ArrowUp stops at 0; ArrowDown stops at the last result; Enter selects the highlighted result when one exists and closes the bar; Escape closes it |
| SearchBar.SearchBarState.SelectItem | src/components/SearchBar.jsx:113-118 | selecting closes the bar and clears the query and the results |
| SearchBar.DownWithoutResults | src/components/SearchBar.jsx:93-101 | with no results ArrowDown moves the selection to -1, and Enter then selects nothing |
| SeasonEdits.SpliceStart | src/pages/AdminPanel.jsx:534 | splice's start: an index in range is kept, a negative one counts from the end |
| SeasonEdits.RemoveAt | src/pages/AdminPanel.jsx:530-537 | removing one element shifts the rest down and removes exactly that element from the multiset |
| SeasonEdits.InsertAt | src/pages/AdminPanel.jsx:601 | inserting puts the element at the index, shifts the rest up and adds exactly it to the multiset |
| SeasonEdits.FilterOutIndex | src/components/VideoForm.jsx:45-51 | filtering out an index in range removes that element; one out of range removes nothing |
| SeasonEdits.Swapped | src/components/VideoForm.jsx:53-71 | the swap exchanges the two positions and leaves the others |
| SeasonEdits.SwappedPermutes | src/components/VideoForm.jsx:53-71 | the swap is a permutation |
| SeasonEdits.Renumber | src/components/VideoForm.jsx:26-29 | each season is renumbered with its position plus one, its chapters kept |
| SeasonEdits.RemoveSeason | src/components/VideoForm.jsx:23-31 | removing a season leaves the others, with their chapters in order, numbered 1..n |
| SeasonEdits.AddSeason | src/components/VideoForm.jsx:16-21 | adding appends season len+1 with one empty chapter, keeping the 1..n numbering |
| SeasonEdits.WithChapters | src/components/VideoForm.jsx:33-36 | replacing one season's chapters changes no other season and keeps its number |
| VideoForm.VideoFormState.constructor | src/components/VideoForm.jsx:5-14 | the form starts as a film, with one first season holding one empty chapter |
| VideoForm.VideoFormState.AddSeason | src/components/VideoForm.jsx:16-21 | appends the next season with one empty chapter |
| VideoForm.VideoFormState.RemoveSeason | src/components/VideoForm.jsx:23-31 | removes the season and renumbers the rest 1..n |
| VideoForm.VideoFormState.AddChapter | src/components/VideoForm.jsx:33-37 | appends an empty chapter to that season only |
| VideoForm.VideoFormState.ChapterChange | src/components/VideoForm.jsx:39-43 | sets one field of one chapter, nothing else |
| VideoForm.VideoFormState.RemoveChapter | src/components/VideoForm.jsx:45-51 | filters that chapter index out of that season only |
| VideoForm.VideoFormState.MoveChapterUp | src/components/VideoForm.jsx:53-61 | swaps with the previous chapter, nothing for the first, the chapters stay a permutation |
| VideoForm.VideoFormState.MoveChapterDown | src/components/VideoForm.jsx:63-71 | swaps with the next chapter, nothing for the last, the chapters stay a permutation |
| VideoForm.VideoFormState.Data | src/components/VideoForm.jsx:77-97 | the posted body carries the common fields, and seasons, subtype, subcategory and a zero progress exactly for a series |
| VideoForm.VideoFormState.Submit | src/components/VideoForm.jsx:73-115 | posts that body; success resets every field to its initial value with a success message, failure only sets the error message |
| SectionAccess.PlanLevel | src/components/MovieSectionCard.jsx:25-35 | the plan level is 1, 2 or 3 for basico, premium, cinefilo and 0 for anything else |
| SectionAccess.UnknownRequirementIsOpen | src/components/MovieSectionCard.jsx:32-37 | a section without a required plan, or with one outside the hierarchy, is open to every user |
| SectionAccess.AccessIsMonotone | src/components/MovieSectionCard.jsx:32-37 | a user whose plan ranks at least as high has at least the same access |
| SectionAccess.CinefiloOpensAll | src/components/MovieSectionCard.jsx:25-37 | cinefilo opens every section, while premium does not open a cinefilo section |
| SectionAccess.HandleClick | src/components/MovieSectionCard.jsx:41-47 | a click opens the section's key exactly when the user has access, else it alerts |
| SeriesManager.Combined | src/components/SeriesManager.jsx:33-36 | the list is the series followed by the anime, a missing list counting as empty |
| SeriesManager.FilteredSeries | src/components/SeriesManager.jsx:62-66 | keeps exactly the series whose normalised title contains the normalised term, in order and each as often as in the input |
| SeriesManager.EmptySearchKeepsAll | src/components/SeriesManager.jsx:62-66 | an empty term keeps every series |
| SeriesManager.ChapterCountCountsListedChapters | src/components/SeriesManager.jsx:113 | the shown count is the number of chapters of the seasons that list theirs |
| SeriesManager.SeriesEditor.constructor | src/components/SeriesManager.jsx:124-125 | the editor starts from the series being edited |
| SeriesManager.SeriesEditor.AddSeason | src/components/SeriesManager.jsx:135-143 | appends season len+1 with one empty chapter |
| SeriesManager.SeriesEditor.RemoveSeason | src/components/SeriesManager.jsx:145-153 | removes the season and renumbers the rest 1..n |
| SeriesManager.SeriesEditor.AddChapter | src/components/SeriesManager.jsx:161-165 | appends "Capítulo k" with an empty URL to that season, k one past its count |
| SeriesManager.SeriesEditor.RemoveChapter | src/components/SeriesManager.jsx:167-171 | filters that chapter index out of that season only |
| SeriesManager.AddedChapterNumber | src/components/SeriesManager.jsx:163 | a chapter added to a season of k chapters is titled "Capítulo k+1", whose number reads back as k+1 |
| SeriesPage.FilteredSeries | src/pages/SeriesPage.jsx:118-129 | keeps exactly the series the callback accepts, in order and each as often as in the input |
| SeriesPage.TodosWithoutSearchShowsAll | src/pages/SeriesPage.jsx:119-120 | "TODOS" without a search term shows every series |
| SeriesPage.NoSearchOnlySubcategory | src/pages/SeriesPage.jsx:119-120 | without a search term only the subcategory decides |
| SeriesPage.BlankSearchKeepsGenreStrings | src/pages/SeriesPage.jsx:121-127 | a search of spaces trims to "", which any genre string contains, so a series with a string genre is shown |
| TvCard.TvCardRow.constructor | src/components/TVCard.jsx:11-76 | a row that starts focused is active with the first card focused; otherwise it is inactive with no card focused |
| TvCard.TvCardRow.HandleKey | src/components/TVCard.jsx:15-68 | an inactive or unfocusable row ignores keys; left and right wrap around the row, up and down move four cards when that stays in the row, Back deactivates, other keys keep the focus, and Enter selects the focused card, or without a handler opens its video when it has a non-empty URL and does nothing otherwise |
| TvCard.LeftThenRight | src/components/TVCard.jsx:20-27 | left then right returns to the same card of a non-empty row |
| TvChannelGrid.ChannelGridFocus.constructor | src/components/TVChannelGrid.jsx:11-19 | the grid starts in channel mode on the first channel |
| TvChannelGrid.ChannelGridFocus.HandleKey | src/components/TVChannelGrid.jsx:24-73 | in category mode up and down request the previous or next category only when one exists (resetting the channel), left, right and Enter switch to channel mode on the first channel; in channel mode up goes to category mode, down changes nothing, left and right clamp, Enter selects the channel when it exists, and only Enter selects |
| TvGrid.Moves | src/hooks/useTVNavigation.js:101-128 | each move, written as an offset: a row is `columns` away and a column is one away |
| TvGrid.TargetInRange | src/hooks/useTVNavigation.js:100-131 | from a valid index of a non-empty grid every move lands on a valid index |
| TvGrid.MovedFrom | src/hooks/useTVNavigation.js:107-128 | each move asks for one row or one column away, or stays |
| TvGrid.EdgesStay | src/hooks/useTVNavigation.js:108-122 | up on the first row and left on the first column stay put |
| TvGrid.DownAtBottom | src/hooks/useTVNavigation.js:113-130 | down on the last row stays put; down into a shorter last row lands on the last item |
| TvGrid.RightMoves | src/hooks/useTVNavigation.js:123-127 | right moves by one exactly when the item is neither in the last column nor the last item |
| TvGrid.UpThenDown | src/hooks/useTVNavigation.js:108-117 | when up moves, down brings the focus back |
| TvGrid.EmptyGrid | src/hooks/useTVNavigation.js:130 | with no items the focus becomes -1 |
| TvGrid.TvGridFocus.constructor | src/hooks/useTVNavigation.js:97-98 | the grid starts on index 0 |
| TvGrid.TvGridFocus.Navigate | src/hooks/useTVNavigation.js:100-131 | the focus moves to the target of the direction, and stays valid when it was |
| TvHome.ItemCounts | src/components/TVHome.jsx:27-32 | one count per section, each the number of its items |
| TvHome.Tagged | src/components/TVHome.jsx:28-31 | each item of a section becomes one entry tagged with the section's type |
| TvHome.AllContent | src/components/TVHome.jsx:27-32 | the flattened list has as many entries as all sections together |
| TvHome.AllContentAt | src/components/TVHome.jsx:27-32 | item j of section k sits after the items of the earlier sections, tagged with its section's `type`, else its `title` |
| TvHome.TvHomeFocus.constructor | src/components/TVHome.jsx:19-22 | the screen starts on the first item of the first section, search closed |
| TvHome.TvHomeFocus.CurrentItem | src/components/TVHome.jsx:34-35 | the focused item exists exactly when both indices are in range |
| TvHome.TvHomeFocus.HandleKey | src/components/TVHome.jsx:38-81 | '/' or Ctrl+S opens search; up and down clamp the section and reset the item to 0; left and right clamp the item within the section; Enter or Space selects the focused item when it exists and a handler is given; every other key leaves section and item unchanged |
| TvHome.TvHomeFocus.MoveOrSelect | src/components/TVHome.jsx:48-80 | the keys after the search shortcut: up and down clamp the section and reset the item to 0, left and right clamp the item within an existing section, Enter or space selects the focused item when there is one and a handler; any other key changes nothing |
| TvLive.CategoriesOf | src/pages/TVLiveTV.jsx:29-31 | the categories are the fetched list, or ["Todos"] when the fetch yields nothing |
| TvLive.CategoriesIn | src/pages/TVLiveTV.jsx:40-45 | the map's keys are exactly the categories the results name |
| TvLive.BuildChannelsMap | src/pages/TVLiveTV.jsx:41-45 | the forEach fills one entry per category named in the results, holding that category's channels |
| TvLive.FailureIsLocal | src/pages/TVLiveTV.jsx:34-45 | a failed fetch for one category leaves it with no channels and every other category with what it had |
| TvLive.ChangedCategory | src/pages/TVLiveTV.jsx:73-79 | 'prev' steps back clamped at 0, anything else steps forward clamped at the last category |
| TvLive.GridRequestsStayInRange | src/pages/TVLiveTV.jsx:73-79 | a change the grid requests moves by exactly one and stays on a valid category |
| TvLive.CurrentChannels | src/pages/TVLiveTV.jsx:60-61 | the channels shown are the selected category's list, or none when it has none |
| TvLive.ChannelRoute | src/pages/TVLiveTV.jsx:63-70 | a channel opens `/watch/` followed by its id, else its database id, else "undefined" |
| TvLive.TvLiveScreen.constructor | src/pages/TVLiveTV.jsx:16-18 | the screen starts with no categories, no channels and the first category selected |
| TvLive.TvLiveScreen.Loaded | src/pages/TVLiveTV.jsx:24-47 | loading sets the categories and the per-category channel lists |
| TvLive.TvLiveScreen.CategoryChange | src/pages/TVLiveTV.jsx:73-79 | the selection moves as ChangedCategory says |
| TvNavigation.TvMenu.constructor | src/components/TVNavigation.jsx:5 | the menu starts on its first entry |
| TvNavigation.TvMenu.HandleKey | src/components/TVNavigation.jsx:20-40 | left and right wrap around the eight entries, Enter opens the focused entry's path, Back goes back, other keys do nothing |
| TvNavigation.LeftThenRight | src/components/TVNavigation.jsx:23-30 | left followed by right comes back to the same entry |
| TvNavigation.PressAll | src/components/TVNavigation.jsx:20-40 | any sequence of key presses keeps the focus on one of the eight entries |
| TvSearch.Results | src/components/TVSearch.jsx:77-94 | never more than 50 results |
| TvSearch.ResultsBlank | src/components/TVSearch.jsx:77-81 | a query that trims to the empty string gives no results |
| TvSearch.ResultsMatch | src/components/TVSearch.jsx:83-89 | for any other query: the first 50 items whose lower-cased name or title contains the lower-cased query (all of them when fewer match), in order and with their multiplicity, and nothing else |
| TvSearch.DropLast | src/components/TVSearch.jsx:131 | `slice(0, -1)` drops the last character, and nothing from an empty query |
| TvSearch.TvSearchScreen.constructor | src/components/TVSearch.jsx:14-21 | the overlay starts with an empty query on the first row |
| TvSearch.TvSearchScreen.SetQuery | src/components/TVSearch.jsx:77-94 | a changed query recomputes the results and resets the selection; an unchanged one triggers nothing |
| TvSearch.TvSearchScreen.HandleKey | src/components/TVSearch.jsx:108-143 | arrows clamp the selection; Enter selects the highlighted result when one exists; Escape closes; Backspace drops a character and a letter, digit or space is typed, both putting the selection back on the first result when the query changes; Enter, Escape and any other key leave the query, the results and the selection as they were |
| TvSearch.BackspaceOnEmpty | src/components/TVSearch.jsx:129-131 | Backspace on an empty query changes nothing, not even the selection |

## Left out

- VlcPlayerFinal.SeekForwardTarget: Java's 32-bit `int` product `seconds * 1000` is modelled on unbounded integers, so its wrap-around for very large arguments is not captured.
- ExoPlayer.ExoPlayerActivity.OnControl: the "seek" position times 1000 is an unbounded integer; the `int` wrap-around of the source is not captured.
- VlcPlayer.FormatTime: takes a non-negative millisecond count; the source is only ever given engine times, and its output for negative inputs is not modelled.
- VlcPlayerFinal.StartSeekMs: the float `start_time` is a `real`; rounding of `float` arithmetic is not modelled.
- PlayerPlugin.PlayVideo: the rejection message for a failed activity start is the fixed prefix only; the exception text appended by the source is not modelled.
- The plugin's pauseVideo, stopVideo, forceStopVideo, seekTo, getCurrentTime and the progress broadcast receiver are thin forwarders to Android intents and are not part of this model; `sendPlayerControl` is.
- AdminPanel.VodEditor.DropOnChapter and AdminPanel.VodEditor.DropOnSeason take the drag source already resolved, as AdminPanel.DropSourceCorrected reads it. The as-written fallback when dragInfo is null (AdminPanel.jsx:587-595, 608-613) reads fields the payload does not have, and `newSeasons[undefined].chapters` then throws a TypeError. That throw is not modelled by the methods; see Findings.
- VlcPlayer.VlcPlayerActivity.OnControl and ExoPlayer.ExoPlayerActivity.OnControl take the action as a string, so the NullPointerException that a missing "action" extra raises in their `switch` while a player exists (VLCPlayerActivity.java:766-769, ExoPlayerActivity.java:48-51) is ruled out by the type and not modelled; only VlcPlayerFinal.VlcFinalActivity.OnCommand, whose source returns early on a null command, models the missing value.
- VlcPlayerFinal.VlcFinalActivity.OnFinishOrKill: Process.killProcess is recorded as the flag processKilled; that nothing of the app runs after it is not modelled.
- Intent parsing, titles, toasts, gestures, layouts and UI visibility are left out, except where a flag is part of the modelled state.
- Engine callbacks: the time and "is playing" answers of the engine are parameters of each event handler; threads, handlers and the real scheduling of runnables are reduced to a flag saying whether a progress loop is scheduled.
- VlcPlayerFinal.VlcFinalActivity.InitializeVlc: an exception after the player exists is modelled as thrown before attachViews; which of the later calls (views, media, listener, play, seek) already ran before it is not distinguished.
- VlcPlayerFinal.VlcFinalActivity.SendProgressUpdate: currentTime and duration are exact quotients; `float` rounding is not modelled.
- Text handling covers ASCII and the Latin-1 letters for `toLowerCase`, and the precomposed Latin-1 letters for NFD; other scripts, and marks outside U+0300..U+036F, are not modelled.
- `localeCompare` is modelled as code-point lexicographic order, a total order, not the locale collation.
- Numbers are integers: `NaN`, `Infinity` and fractional times are not modelled; `Number(x) || 0` is the integer part of a present number, else 0.
- ProgressReporter: a missing element or video id means no listeners are attached (`subscribed` is false); the check of `videoRef.current` repeated inside each handler is not modelled, and browser media events are method calls.
- The Electron `mpv-closed` handler does nothing in the source and has no model.
- VideoProgress: `lastChapter` and `lastSeason` are integers; values of other JSON types are not modelled.
- Watch: the normalisation of fetched data, the Electron mpv launch and the other effects of the page are left out; chapter resolution, the playable-kind rule and the error path are modelled.
- VideoPlayer: the HLS and native web player set-up and the background play/pause/stop handlers are not part of this model.
- TvHome: the section list comes from the caller; `encodeURIComponent` in navigation URLs is not modelled.
- CoverCarousel and HeroBanner: the random shuffle is a parameter (any permutation of the items), not a random generator.
- TvCard: the default navigation URL (with its encoding) is not modelled; selection is recorded as the chosen item.
- TvLive: a failed category-list request sets an error message in the source; the model keeps the fallback and per-category failures only.
- AdminPanel: chapters carry only title and url; the `"undefined"` key produced for channels without a category, and the generic field editors `handleSeasonChange` / `handleChapterChange`, are not modelled.
- VideoForm and SeriesManager: the source mutates shallow copies of nested arrays (aliasing between old and new state); the model edits values.
- SeriesManager.SeriesEditor.constructor: the editor starts from a season list; opening it on a series whose `seasons` field is missing is not modelled.
- TvSearch and SearchBar: voice search is left out; SearchBar's genre field is modelled as a string; an array-valued genre is not modelled.
- Content-access gating (`checkContentAccess`) is a call into code that is not part of this model.
- MoviesPage: the `onlyMovies` and "ESPECIALES" filters and the continue-watching date sort are not modelled.
- Home: a `lastSeason` of `null` passes through the row builder unchanged; the model keeps it as an absent value.
- DataCache: stored values are reduced to a small `JsValue` datatype (falsy or a string).
- MyList: JSON serialisation and `localStorage` are a map from storage key to list; a user without an id has no storage key.
- Gemini: the remote calls and the genre and theme description texts are left out; the cache expiry boundary, the era buckets, genre normalisation and the fallback theme are modelled.
- Base64.Decode: rejects only characters outside the alphabet once padding is stripped; `atob`'s length checks are not modelled. The streaming fetch with retry (`fetchStreamWithRetry`) is network code and is left out.
- Timers and clocks are parameters; sends are appended to ghost logs, and the success of a network PUT is a boolean parameter. In the two progress hooks a PUT is sent by one step and settled by another, so events that arrive while it is pending are modelled.
- MoviesPage.MoviesPageState.SelectMainSection: the 5-second delay of the timer that clears the plan error is not modelled; its firing is the separate step OnErrorTimeout, which may come at any later point.
- videoProgressService.getProgress and getContinueWatching (src/services/videoProgress.js:4-22) only pass the server's answer on, or null and an empty list when the request fails; with the network outside the model nothing about them is left to state, so they are not modelled.
- MpvProgress.MpvProgressHook.OnEnded: the awaited completed PUT and the navigation after it are one step; it reads and writes no throttle marker, so events arriving while it is pending cannot interact with it.
- Keys inherited from `Object.prototype` in plain JavaScript objects used as maps are not modelled.

## Findings

| source | as written | input that shows it | evidently intended | confidence | as-written member | corrected member |
|---|---|---|---|---|---|---|
| android/app/src/main/java/play/teamg/store/VLCPlayerActivity_FINAL.java:74-78 | onCreate registers the command, finish and kill receivers after initializeVLC, even when initializeVLC has failed and already called finishAndCleanup; the onDestroy that follows returns early, so the receivers stay registered | a launch with a valid video URL whose LibVLC initialization throws | receivers registered only while the activity is not finishing, so that no receiver outlives the activity | medium, not executed | VlcPlayerFinal.FailedStartLeaksReceivers | VlcPlayerFinal.FailedStartCorrected |
| src/pages/AdminPanel.jsx:577-613 | handleDragStart writes the text/plain payload as `{ seasonIndex, chapterIndex }`, but when dragInfo is null both drop handlers parse it and destructure `{ fromSeason, fromChapter }`, which are undefined, so `newSeasons[undefined].chapters` throws a TypeError | a drop whose dragInfo state is null while the dataTransfer carries the payload of a chapter drag | the fallback reads seasonIndex and chapterIndex and moves the dragged chapter, as the dragInfo path does | medium, not executed | AdminPanel.FallbackLosesSource | AdminPanel.FallbackRecoversSource |
