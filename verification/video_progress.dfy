/**
 * The progress service of src/services/videoProgress.js: the body of the
 * progress PUT request and the values returned when a request fails.
 *
 * A request body is a JSON object, represented as a map from key to value;
 * a key that JSON serialisation would drop (an `undefined` value) is absent.
 */
module VideoProgress {
  import opened Wrappers

  datatype Json = Num(n: real) | Bool(b: bool)

  type Payload = map<string, Json>

  /**
   * The arguments of saveProgress. `None` is an absent (undefined) field; a
   * `lastTime` of `None` stands for any value whose type is not number.
   */
  datatype SaveArgs = SaveArgs(
    lastTime: Option<real>,
    lastChapter: Option<int>,
    lastSeason: Option<int>,
    completed: Option<bool>,
    progress: Option<real>)

  datatype Request = Put(path: string, payload: Payload)

  /** The keys a saveProgress body may hold. */
  const SaveKeys: set<string> := {"lastTime", "lastChapter", "lastSeason", "completed", "progress"}

  function ProgressPath(videoId: string): string {
    "/api/videos/" + videoId + "/progress"
  }

  /** Adds `key` to `p` only when the value is defined. */
  function WithOptional(p: Payload, key: string, v: Option<Json>): (r: Payload)
    ensures v.None? ==> r == p
    ensures v.Some? ==> key in r && r[key] == v.value && forall k :: k in p && k != key ==> k in r && r[k] == p[k]
    ensures r.Keys <= p.Keys + {key}
  {
    if v.Some? then p[key := v.value] else p
  }

  function NumOf(v: Option<int>): Option<Json> {
    if v.Some? then Some(Num(v.value as real)) else None
  }

  /**
   * The body of the PUT: nothing when lastTime is not a number; otherwise
   * lastTime always, and each other field exactly when it is defined.
   */
  function SavePayload(args: SaveArgs): (r: Option<Payload>)
    ensures r.None? <==> args.lastTime.None?
    ensures r.Some? ==> r.value.Keys <= SaveKeys
    ensures r.Some? ==> "lastTime" in r.value && r.value["lastTime"] == Num(args.lastTime.value)
    ensures r.Some? ==> ("lastChapter" in r.value <==> args.lastChapter.Some?)
    ensures r.Some? ==> ("lastSeason" in r.value <==> args.lastSeason.Some?)
    ensures r.Some? ==> ("completed" in r.value <==> args.completed.Some?)
    ensures r.Some? ==> ("progress" in r.value <==> args.progress.Some?)
  {
    if args.lastTime.None? then None
    else
      var p0 := map["lastTime" := Num(args.lastTime.value)];
      var p1 := WithOptional(p0, "lastChapter", NumOf(args.lastChapter));
      var p2 := WithOptional(p1, "lastSeason", NumOf(args.lastSeason));
      var p3 := WithOptional(p2, "completed", if args.completed.Some? then Some(Bool(args.completed.value)) else None);
      var p4 := WithOptional(p3, "progress", if args.progress.Some? then Some(Num(args.progress.value)) else None);
      Some(p4)
  }

  /** Reads an integer field back from a body. */
  function IntField(p: Payload, key: string): Option<int> {
    if key in p && p[key].Num? then Some(p[key].n.Floor) else None
  }

  /** What a server reading the body sees: the inverse of SavePayload. */
  function ParsePayload(p: Payload): SaveArgs {
    SaveArgs(
      if "lastTime" in p && p["lastTime"].Num? then Some(p["lastTime"].n) else None,
      IntField(p, "lastChapter"),
      IntField(p, "lastSeason"),
      if "completed" in p && p["completed"].Bool? then Some(p["completed"].b) else None,
      if "progress" in p && p["progress"].Num? then Some(p["progress"].n) else None)
  }

  /** Every defined argument reaches the server with its value. */
  lemma SavePayloadRoundTrip(args: SaveArgs)
    requires args.lastTime.Some?
    ensures ParsePayload(SavePayload(args).value) == args
  {
  }

  /**
   * saveProgress: the request it sends (none when lastTime is not a number)
   * and the value it resolves to. `response` is the server's watchProgress,
   * or `None` when the request fails.
   */
  function SaveProgress<W>(videoId: string, args: SaveArgs, response: Option<W>): (r: (Option<Request>, Option<W>))
    ensures r.0.None? <==> args.lastTime.None?
    ensures r.0.Some? ==> r.0.value.path == ProgressPath(videoId) && ParsePayload(r.0.value.payload) == args
    ensures r.0.None? ==> r.1.None?
    ensures r.0.Some? ==> r.1 == response
  {
    match SavePayload(args)
    case None => (None, None)
    case Some(p) =>
      SavePayloadRoundTrip(args);
      (Some(Put(ProgressPath(videoId), p)), response)
  }
}
