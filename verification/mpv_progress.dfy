/**
 * The desktop (Electron + mpv) progress hook, src/hooks/useElectronMpvProgress.js:
 * throttled progress PUTs on mpv `time-pos` events and a completed PUT
 * followed by the next-episode rule on `mpv-ended`.
 *
 * The clock is a parameter: `now` is read before a send and `doneAt` after
 * it succeeds. A `time-pos` PUT is sent by one step and settled by another,
 * so further events can arrive while it is pending; `inFlight` counts the
 * pending ones. Whether a PUT succeeds is the parameter `ok`. PUT requests
 * and calls of `onNextEpisode` go to the ghost logs `puts` and `navigations`.
 */
module MpvProgress {
  import opened Wrappers
  import opened Episodes
  import opened VideoProgress

  /** The throttle window: `opts.intervalMs`, or 20000 ms when missing or zero. */
  function IntervalOf(intervalMs: Option<int>): (r: int)
    ensures r != 0
    ensures intervalMs.None? || intervalMs.value == 0 ==> r == 20000
    ensures intervalMs.Some? && intervalMs.value != 0 ==> r == intervalMs.value
  {
    if intervalMs.Some? && intervalMs.value != 0 then intervalMs.value else 20000
  }

  /** Adds the chapter and season indices when the current chapter is known. */
  function WithChapter(p: Payload, chapter: Option<Position>): (r: Payload)
    ensures chapter.None? ==> r == p
    ensures chapter.Some? ==>
      && "lastChapter" in r && r["lastChapter"] == Num(chapter.value.chapter as real)
      && "lastSeason" in r && r["lastSeason"] == Num(chapter.value.season as real)
      && r.Keys == p.Keys + {"lastChapter", "lastSeason"}
  {
    if chapter.Some? then
      p["lastChapter" := Num(chapter.value.chapter as real)]["lastSeason" := Num(chapter.value.season as real)]
    else p
  }

  /** The body of a `time-pos` PUT: whole seconds of the position (0 when it is not a number). */
  function TimePayload(timePos: Option<real>, chapter: Option<Position>): (r: Payload)
    ensures "lastTime" in r && r["lastTime"] == Num(timePos.GetOr(0.0).Floor as real)
    ensures "completed" !in r
    ensures ("lastChapter" in r) == chapter.Some?
  {
    WithChapter(map["lastTime" := Num(timePos.GetOr(0.0).Floor as real)], chapter)
  }

  /** The body of the `mpv-ended` PUT: completed=true and no time. */
  function EndedPayload(chapter: Option<Position>): (r: Payload)
    ensures "completed" in r && r["completed"] == Bool(true)
    ensures "lastTime" !in r
    ensures ("lastSeason" in r) == chapter.Some?
  {
    WithChapter(map["completed" := Bool(true)], chapter)
  }

  class MpvProgressHook {
    var videoId: Option<string>
    /** The handlers are subscribed only with a video id and the Electron bridge present. */
    var subscribed: bool
    var interval: int
    var chapter: Option<Position>
    var seasons: Option<seq<nat>>
    var hasNextHandler: bool
    /** lastSentRef: when the last successful PUT finished. */
    var lastSent: int
    /** `time-pos` PUTs sent and not yet settled. */
    var inFlight: nat

    ghost var puts: seq<Request>
    ghost var navigations: seq<Position>

    ghost predicate Valid()
      reads this
    {
      subscribed ==> videoId.Some? && videoId.value != ""
    }

    constructor (videoId: Option<string>, bridge: bool, intervalMs: Option<int>, chapter: Option<Position>,
                 seasons: Option<seq<nat>>, hasNextHandler: bool)
      ensures Valid()
      ensures this.videoId == videoId && this.chapter == chapter && this.seasons == seasons
      ensures this.hasNextHandler == hasNextHandler && interval == IntervalOf(intervalMs)
      ensures subscribed == (videoId.Some? && videoId.value != "" && bridge)
      ensures lastSent == 0 && inFlight == 0 && puts == [] && navigations == []
    {
      this.videoId := videoId;
      subscribed := videoId.Some? && videoId.value != "" && bridge;
      interval := IntervalOf(intervalMs);
      this.chapter := chapter;
      this.seasons := seasons;
      this.hasNextHandler := hasNextHandler;
      lastSent := 0;
      inFlight := 0;
      puts := [];
      navigations := [];
    }

    /**
     * A `time-pos` event: dropped when it comes less than the interval after
     * the last successful send; otherwise the position is sent and the PUT
     * stays pending. The throttle window does not move here.
     */
    method OnTimePos(timePos: Option<real>, now: int) returns (sent: bool)
      requires Valid()
      modifies this`puts, this`inFlight
      ensures sent == (subscribed && now - lastSent >= interval)
      ensures !sent ==> puts == old(puts) && inFlight == old(inFlight)
      ensures sent ==>
        && puts == old(puts) + [Put(ProgressPath(videoId.value), TimePayload(timePos, chapter))]
        && inFlight == old(inFlight) + 1
    {
      if !subscribed || now - lastSent < interval {
        return false;
      }
      puts := puts + [Put(ProgressPath(videoId.value), TimePayload(timePos, chapter))];
      inFlight := inFlight + 1;
      sent := true;
    }

    /** A pending `time-pos` PUT settles: on success the window restarts at `doneAt`. */
    method OnTimePosSettled(ok: bool, doneAt: int)
      requires inFlight > 0
      modifies this`lastSent, this`inFlight
      ensures inFlight == old(inFlight) - 1
      ensures lastSent == if ok then doneAt else old(lastSent)
    {
      inFlight := inFlight - 1;
      if ok {
        lastSent := doneAt;
      }
    }

    /**
     * `mpv-ended`: sends completed=true; only once that PUT succeeded, moves
     * to the next episode by the shared rule.
     */
    method OnEnded(ok: bool)
      requires Valid()
      modifies this`puts, this`navigations
      ensures !subscribed ==> puts == old(puts) && navigations == old(navigations)
      ensures subscribed ==> puts == old(puts) + [Put(ProgressPath(videoId.value), EndedPayload(chapter))]
      ensures subscribed ==>
        var moves := ok && hasNextHandler && seasons.Some? && chapter.Some? && NextEpisode(seasons.value, chapter.value).Some?;
        navigations == old(navigations) + (if moves then [NextEpisode(seasons.value, chapter.value).value] else [])
    {
      if !subscribed {
        return;
      }
      puts := puts + [Put(ProgressPath(videoId.value), EndedPayload(chapter))];
      if ok && hasNextHandler && seasons.Some? && chapter.Some? {
        var n := NextEpisode(seasons.value, chapter.value);
        if n.Some? {
          navigations := navigations + [n.value];
        }
      }
    }
  }

  /** A failed send does not use up the window: the next event at the same instant is sent again. */
  method FailedSendIsRetried(h: MpvProgressHook, pos: real, now: int)
    requires h.Valid() && h.subscribed && now - h.lastSent >= h.interval
    modifies h
    ensures |h.puts| == |old(h.puts)| + 2
  {
    var first := h.OnTimePos(Some(pos), now);
    h.OnTimePosSettled(false, now);
    var second := h.OnTimePos(Some(pos), now);
  }

  /**
   * While a PUT is pending the window has not moved, so a second event past
   * the interval is sent as well, however soon it follows the first.
   */
  method PendingSendDoesNotThrottle(h: MpvProgressHook, pos1: real, pos2: real, now1: int, now2: int)
    requires h.Valid() && h.subscribed && now1 - h.lastSent >= h.interval && now2 >= now1
    modifies h
    ensures |h.puts| == |old(h.puts)| + 2 && h.inFlight == old(h.inFlight) + 2
  {
    var first := h.OnTimePos(Some(pos1), now1);
    var second := h.OnTimePos(Some(pos2), now2);
  }

  /** Once a PUT has succeeded at `doneAt`, an event less than the interval later is dropped. */
  method SettledSendThrottles(h: MpvProgressHook, pos: real, now: int, doneAt: int, later: int)
    requires h.Valid() && h.subscribed && now - h.lastSent >= h.interval
    requires doneAt <= later < doneAt + h.interval
    modifies h
    ensures |h.puts| == |old(h.puts)| + 1
  {
    var first := h.OnTimePos(Some(pos), now);
    h.OnTimePosSettled(true, doneAt);
    var second := h.OnTimePos(Some(pos), later);
  }
}
