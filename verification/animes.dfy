/**
 * src/pages/Animes.jsx: the anime page merges the new-style anime list with
 * the old-style one (series of subtype anime), drops items without an id,
 * keeps the first item of each id and fills in title and thumbnail.
 */
module Animes {
  import opened Wrappers

  datatype Video = Video(
    rawId: Option<string>, id: Option<string>, title: Option<string>, name: Option<string>,
    customThumbnail: Option<string>, thumbnail: Option<string>, logo: Option<string>, tmdbThumbnail: Option<string>)

  /** The entry stored for a video: `_id` normalised to `_id || id`, title and thumbnail with their fallbacks. */
  datatype Anime = Anime(key: string, title: string, thumbnail: string)

  /** `video._id || video.id`, "" when neither is set. */
  function KeyOf(v: Video): string {
    OrElse(v.rawId, OrElse(v.id, ""))
  }

  function Entry(v: Video): (r: Anime)
    ensures r.key == KeyOf(v)
    ensures r.title != ""
    ensures v.title.Some? && v.title.value != "" ==> r.title == v.title.value
  {
    Anime(KeyOf(v),
          OrElse(v.title, OrElse(v.name, "Sin título")),
          OrElse(v.customThumbnail, OrElse(v.thumbnail, OrElse(v.logo, OrElse(v.tmdbThumbnail, "")))))
  }

  function Keys(entries: seq<Anime>): set<string> {
    set e | e in entries :: e.key
  }

  /** The Map's values after the forEach over `videos`, in insertion order. */
  function Unique(videos: seq<Video>): seq<Anime> {
    if videos == [] then []
    else
      var front := Unique(videos[..|videos| - 1]);
      var v := videos[|videos| - 1];
      if KeyOf(v) != "" && KeyOf(v) !in Keys(front) then front + [Entry(v)] else front
  }

  /** A failed request is read as an empty list: `.catch(() => ({data: {videos: []}}))`. */
  function Videos(response: Option<seq<Video>>): seq<Video> {
    response.GetOr([])
  }

  lemma KeysAppend(entries: seq<Anime>, e: Anime)
    ensures Keys(entries + [e]) == Keys(entries) + {e.key}
  {
    assert forall x :: x in entries + [e] <==> x in entries || x == e;
  }

  /** One step of the forEach: the last video is added when its id is new. */
  lemma UniqueStep(videos: seq<Video>)
    requires videos != []
    ensures var front := Unique(videos[..|videos| - 1]); var v := videos[|videos| - 1];
      Unique(videos) == if KeyOf(v) != "" && KeyOf(v) !in Keys(front) then front + [Entry(v)] else front
  {
  }

  /** UniqueStep on the prefixes of one list. */
  lemma PrefixStep(all: seq<Video>, i: nat)
    requires i < |all|
    ensures var front := Unique(all[..i]); var v := all[i];
      Unique(all[..i + 1]) == if KeyOf(v) != "" && KeyOf(v) !in Keys(front) then front + [Entry(v)] else front
  {
    assert all[..i + 1][..i] == all[..i] && all[..i + 1][i] == all[i];
    UniqueStep(all[..i + 1]);
  }

  /** fetchAnimes: the merge loop, keyed by id, first occurrence winning. */
  method MergeAnimes(newAnimes: Option<seq<Video>>, oldAnimes: Option<seq<Video>>) returns (unique: seq<Anime>)
    ensures unique == Unique(Videos(newAnimes) + Videos(oldAnimes))
  {
    var all := Videos(newAnimes) + Videos(oldAnimes);
    var seen: set<string> := {};
    unique := [];
    var i := 0;
    while i < |all|
      invariant 0 <= i <= |all|
      invariant unique == Unique(all[..i])
      invariant seen == Keys(unique)
    {
      var video := all[i];
      var id := KeyOf(video);
      PrefixStep(all, i);
      if id != "" && id !in seen {
        KeysAppend(unique, Entry(video));
        unique := unique + [Entry(video)];
        seen := seen + {id};
      }
      i := i + 1;
    }
    assert all[..|all|] == all;
  }

  /** The merged list has one entry per id. */
  lemma {:induction false} UniqueKeysDistinct(videos: seq<Video>)
    ensures forall a, b :: 0 <= a < b < |Unique(videos)| ==> Unique(videos)[a].key != Unique(videos)[b].key
  {
    if videos != [] {
      var n := |videos|;
      UniqueKeysDistinct(videos[..n - 1]);
      UniqueStep(videos);
      var front := Unique(videos[..n - 1]);
      var v := videos[n - 1];
      if KeyOf(v) != "" && KeyOf(v) !in Keys(front) {
        var r := front + [Entry(v)];
        forall a, b | 0 <= a < b < |r| ensures r[a].key != r[b].key {
          assert r[a] == front[a] && front[a] in front;
          if b < |front| {
            assert r[b] == front[b];
          } else {
            assert r[b] == Entry(v);
          }
        }
      }
    }
  }

  /** The non-empty ids of a list of videos. */
  function Ids(videos: seq<Video>): set<string> {
    set v | v in videos && KeyOf(v) != "" :: KeyOf(v)
  }

  lemma IdsAppend(front: seq<Video>, v: Video)
    ensures Ids(front + [v]) == Ids(front) + (if KeyOf(v) != "" then {KeyOf(v)} else {})
  {
    assert forall x :: x in front + [v] <==> x in front || x == v;
  }

  /** Exactly the ids that occur get an entry; videos without an id contribute nothing. */
  lemma {:induction false} UniqueKeys(videos: seq<Video>)
    ensures Keys(Unique(videos)) == Ids(videos)
  {
    if videos != [] {
      var n := |videos|;
      var front := videos[..n - 1];
      var v := videos[n - 1];
      UniqueKeys(front);
      UniqueStep(videos);
      assert videos == front + [v];
      IdsAppend(front, v);
      if KeyOf(v) != "" && KeyOf(v) !in Keys(Unique(front)) {
        KeysAppend(Unique(front), Entry(v));
      }
    }
  }

  /** `e` is the entry of a video that no earlier video shares its id with. */
  ghost predicate FirstWith(videos: seq<Video>, e: Anime) {
    exists i :: 0 <= i < |videos| && Entry(videos[i]) == e && forall j :: 0 <= j < i ==> KeyOf(videos[j]) != e.key
  }

  /** Each entry comes from the first video with its id. */
  lemma {:induction false} UniqueFirstWins(videos: seq<Video>)
    ensures forall e :: e in Unique(videos) ==> FirstWith(videos, e)
  {
    if videos != [] {
      var n := |videos|;
      var front := videos[..n - 1];
      UniqueFirstWins(front);
      UniqueStep(videos);
      forall e | e in Unique(videos) ensures FirstWith(videos, e) {
        if e in Unique(front) {
          FirstWithExtend(videos, e);
        } else {
          NewEntryFirst(videos);
        }
      }
    }
  }

  /** An entry first for its id among the earlier videos stays first when a video is appended. */
  lemma FirstWithExtend(videos: seq<Video>, e: Anime)
    requires videos != [] && FirstWith(videos[..|videos| - 1], e)
    ensures FirstWith(videos, e)
  {
    var front := videos[..|videos| - 1];
    var i :| 0 <= i < |front| && Entry(front[i]) == e && forall j :: 0 <= j < i ==> KeyOf(front[j]) != e.key;
    assert videos[i] == front[i];
    forall j | 0 <= j < i ensures KeyOf(videos[j]) != e.key {
      assert videos[j] == front[j];
    }
  }

  /** The entry the last video adds is first for its id. */
  lemma NewEntryFirst(videos: seq<Video>)
    requires videos != []
    requires var v := videos[|videos| - 1];
      KeyOf(v) != "" && KeyOf(v) !in Keys(Unique(videos[..|videos| - 1]))
    ensures FirstWith(videos, Entry(videos[|videos| - 1]))
  {
    var n := |videos|;
    var front := videos[..n - 1];
    var v := videos[n - 1];
    UniqueKeys(front);
    forall j | 0 <= j < n - 1 ensures KeyOf(videos[j]) != KeyOf(v) {
      assert videos[j] == front[j] && front[j] in front;
    }
    assert Entry(videos[n - 1]).key == KeyOf(v);
  }

  /** An anime of the new list keeps its entry: the old list only adds the ids the new one lacks. */
  lemma NewListWins(newVideos: seq<Video>, oldVideos: seq<Video>, v: Video)
    requires v in newVideos && KeyOf(v) != ""
    ensures exists e :: e in Unique(newVideos + oldVideos) && e.key == KeyOf(v)
    ensures forall e :: e in Unique(newVideos + oldVideos) && e.key == KeyOf(v) ==>
      exists i :: 0 <= i < |newVideos| && Entry(newVideos[i]) == e
  {
    var all := newVideos + oldVideos;
    UniqueKeys(all);
    UniqueFirstWins(all);
    assert v in all;
    assert KeyOf(v) in Ids(all);
    assert KeyOf(v) in Keys(Unique(all));
    var k :| 0 <= k < |newVideos| && newVideos[k] == v;
    assert all[k] == v;
    forall e | e in Unique(all) && e.key == KeyOf(v)
      ensures exists i :: 0 <= i < |newVideos| && Entry(newVideos[i]) == e
    {
      assert FirstWith(all, e);
      var i :| 0 <= i < |all| && Entry(all[i]) == e && forall j :: 0 <= j < i ==> KeyOf(all[j]) != e.key;
      assert i <= k;
      assert all[i] == newVideos[i];
    }
  }
}
