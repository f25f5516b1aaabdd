/**
 * The HTML5 progress hook, src/hooks/useProgressReporter.js: progress PUTs on
 * `timeupdate` (throttled by time and by distance), `pause`, `ended`,
 * large `seeking` jumps and one initial ping.
 *
 * The element's currentTime and duration, the clock (`now` before a send,
 * `doneAt` after it succeeds) and the success of the PUT (`ok`) are
 * parameters. Sent bodies go to the ghost log `puts`. A PUT is sent by one
 * step and settled by another, in any order, so events can arrive while
 * PUTs are pending; `inFlight` holds the whole-second position each pending
 * PUT will record when it succeeds.
 */
module ProgressReporter {
  import opened Wrappers
  import opened VideoProgress

  function Abs(x: int): nat {
    if x < 0 then -x else x
  }

  /** `opts.intervalMs || 20000` */
  function IntervalOf(intervalMs: Option<int>): (r: int)
    ensures r != 0
    ensures intervalMs.None? || intervalMs.value == 0 ==> r == 20000
    ensures intervalMs.Some? && intervalMs.value != 0 ==> r == intervalMs.value
  {
    if intervalMs.Some? && intervalMs.value != 0 then intervalMs.value else 20000
  }

  /** `opts.minDeltaSeconds || 5` */
  function MinDeltaOf(minDeltaSeconds: Option<int>): (r: int)
    ensures r != 0
    ensures minDeltaSeconds.None? || minDeltaSeconds.value == 0 ==> r == 5
    ensures minDeltaSeconds.Some? && minDeltaSeconds.value != 0 ==> r == minDeltaSeconds.value
  {
    if minDeltaSeconds.Some? && minDeltaSeconds.value != 0 then minDeltaSeconds.value else 5
  }

  function Min(a: real, b: real): real {
    if a <= b then a else b
  }

  /**
   * The body of a progress PUT: whole seconds played, the completed flag,
   * and the fraction played (capped at 1) only when the whole-second
   * duration is non-zero.
   */
  function ReportPayload(currentTime: real, duration: real, completed: bool): (r: Payload)
    ensures "lastTime" in r && r["lastTime"] == Num(currentTime.Floor as real)
    ensures "completed" in r && r["completed"] == Bool(completed)
    ensures ("progress" in r) <==> duration.Floor != 0
    ensures "progress" in r ==> r["progress"].Num? && r["progress"].n <= 1.0
    ensures "progress" in r && currentTime >= 0.0 && duration > 0.0 ==> r["progress"].Num? && r["progress"].n >= 0.0
    ensures r.Keys <= {"lastTime", "progress", "completed"}
  {
    var now := currentTime.Floor;
    var d := duration.Floor;
    var base := map["lastTime" := Num(now as real), "completed" := Bool(completed)];
    if d != 0 then base["progress" := Num(Min(1.0, now as real / d as real))] else base
  }

  class ProgressReporterHook {
    var videoId: string
    /** Listeners exist only with a mounted element and a video id. */
    var subscribed: bool
    var interval: int
    var minDelta: int
    var lastSentAt: int
    var lastSentTime: int
    var inFlight: seq<int>

    ghost var puts: seq<Request>

    constructor (elementPresent: bool, videoId: Option<string>, intervalMs: Option<int>, minDeltaSeconds: Option<int>)
      ensures subscribed == (elementPresent && videoId.Some? && videoId.value != "")
      ensures this.videoId == videoId.GetOr("")
      ensures interval == IntervalOf(intervalMs) && minDelta == MinDeltaOf(minDeltaSeconds)
      ensures lastSentAt == 0 && lastSentTime == 0 && inFlight == [] && puts == []
    {
      this.videoId := videoId.GetOr("");
      subscribed := elementPresent && videoId.Some? && videoId.value != "";
      interval := IntervalOf(intervalMs);
      minDelta := MinDeltaOf(minDeltaSeconds);
      lastSentAt := 0;
      lastSentTime := 0;
      inFlight := [];
      puts := [];
    }

    /** sendProgress: always sends; the markers stay until the PUT settles. */
    method Send(completed: bool, currentTime: real, duration: real)
      modifies this`puts, this`inFlight
      ensures puts == old(puts) + [Put(ProgressPath(videoId), ReportPayload(currentTime, duration, completed))]
      ensures inFlight == old(inFlight) + [currentTime.Floor]
    {
      puts := puts + [Put(ProgressPath(videoId), ReportPayload(currentTime, duration, completed))];
      inFlight := inFlight + [currentTime.Floor];
    }

    /** The pending PUT `i` settles: on success the markers become `doneAt` and the position it sent. */
    method Settle(i: nat, ok: bool, doneAt: int)
      requires i < |inFlight|
      modifies this`inFlight, this`lastSentAt, this`lastSentTime
      ensures inFlight == old(inFlight[..i] + inFlight[i + 1..])
      ensures ok ==> lastSentAt == doneAt && lastSentTime == old(inFlight[i])
      ensures !ok ==> lastSentAt == old(lastSentAt) && lastSentTime == old(lastSentTime)
    {
      if ok {
        lastSentAt := doneAt;
        lastSentTime := inFlight[i];
      }
      inFlight := inFlight[..i] + inFlight[i + 1..];
    }

    /** The `timeupdate` test: far enough from the last sent position and late enough after the last send. */
    predicate TimeUpdateDue(currentTime: real, now: int)
      reads this
    {
      subscribed && Abs(currentTime.Floor - lastSentTime) >= minDelta && now - lastSentAt >= interval
    }

    /** `timeupdate`: sends only when TimeUpdateDue. */
    method OnTimeUpdate(currentTime: real, duration: real, now: int)
      modifies this`puts, this`inFlight
      ensures old(TimeUpdateDue(currentTime, now)) ==>
        && puts == old(puts) + [Put(ProgressPath(videoId), ReportPayload(currentTime, duration, false))]
        && inFlight == old(inFlight) + [currentTime.Floor]
      ensures !old(TimeUpdateDue(currentTime, now)) ==> puts == old(puts) && inFlight == old(inFlight)
    {
      if !subscribed {
        return;
      }
      var nowSec := currentTime.Floor;
      if Abs(nowSec - lastSentTime) < minDelta {
        return;
      }
      if now - lastSentAt >= interval {
        Send(false, currentTime, duration);
      }
    }

    /** `pause` (and the initial ping): always sends completed=false. */
    method OnPause(currentTime: real, duration: real)
      modifies this`puts, this`inFlight
      ensures subscribed ==>
        && puts == old(puts) + [Put(ProgressPath(videoId), ReportPayload(currentTime, duration, false))]
        && inFlight == old(inFlight) + [currentTime.Floor]
      ensures !subscribed ==> puts == old(puts) && inFlight == old(inFlight)
    {
      if subscribed {
        Send(false, currentTime, duration);
      }
    }

    /** `ended`: always sends completed=true. */
    method OnEnded(currentTime: real, duration: real)
      modifies this`puts, this`inFlight
      ensures subscribed ==>
        && puts == old(puts) + [Put(ProgressPath(videoId), ReportPayload(currentTime, duration, true))]
        && inFlight == old(inFlight) + [currentTime.Floor]
      ensures !subscribed ==> puts == old(puts) && inFlight == old(inFlight)
    {
      if subscribed {
        Send(true, currentTime, duration);
      }
    }

    /** `seeking`: sends at once only for a jump of more than 10 s from the last sent position. */
    method OnSeeking(currentTime: real, duration: real)
      modifies this`puts, this`inFlight
      ensures subscribed && Abs(currentTime.Floor - lastSentTime) > 10 ==>
        && puts == old(puts) + [Put(ProgressPath(videoId), ReportPayload(currentTime, duration, false))]
        && inFlight == old(inFlight) + [currentTime.Floor]
      ensures !(subscribed && Abs(currentTime.Floor - lastSentTime) > 10) ==>
        puts == old(puts) && inFlight == old(inFlight)
    {
      if subscribed && Abs(currentTime.Floor - lastSentTime) > 10 {
        Send(false, currentTime, duration);
      }
    }
  }

  /**
   * While the first PUT is pending the markers have not moved, so a second
   * `timeupdate` that passes the same test is sent as well.
   */
  method PendingSendDoesNotThrottle(h: ProgressReporterHook, t1: real, t2: real, d: real, now1: int, now2: int)
    requires h.TimeUpdateDue(t1, now1) && h.TimeUpdateDue(t2, now2)
    modifies h
    ensures |h.puts| == |old(h.puts)| + 2 && |h.inFlight| == |old(h.inFlight)| + 2
  {
    h.OnTimeUpdate(t1, d, now1);
    h.OnTimeUpdate(t2, d, now2);
  }

  /** After a successful PUT of position `t`, a `timeupdate` less than minDelta seconds from `t` sends nothing. */
  method SettledSendThrottles(h: ProgressReporterHook, t: real, later: real, d: real, now: int)
    requires h.subscribed && Abs(later.Floor - t.Floor) < h.minDelta
    modifies h
    ensures |h.puts| == |old(h.puts)| + 1
  {
    h.OnPause(t, d);
    h.Settle(|h.inFlight| - 1, true, now);
    h.OnTimeUpdate(later, d, now);
  }
}
