/**
 * The content administration page (src/pages/AdminPanel.jsx): the season
 * and chapter editor of the VOD form, its validation before saving, the
 * normalisation of plans and genres, the VOD selection and the page count.
 *
 * The editor keeps the form's seasons in a field that each handler replaces
 * by an edited deep copy.
 */
module AdminPanel {
  import opened Wrappers
  import Text
  import Numbers
  import opened SeasonEdits

  datatype Season = Season(seasonNumber: nat, title: string, chapters: seq<Chapter>)

  const VodsPerPage: nat := 50

  /** The keys of ALL_AVAILABLE_PLANS. */
  const AvailablePlans: seq<string> := ["gplay", "estandar", "cinefilo", "sports", "premium"]

  /** Every chapter of every season, seasons in order. */
  function AllChapters(seasons: seq<Season>): seq<Chapter> {
    if seasons == [] then [] else AllChapters(seasons[..|seasons| - 1]) + seasons[|seasons| - 1].chapters
  }

  /** Replacing the chapters of one season replaces exactly those chapters in the whole. */
  lemma {:induction false} AllChaptersUpdate(seasons: seq<Season>, i: nat, cs: seq<Chapter>)
    requires i < |seasons|
    ensures multiset(AllChapters(seasons[i := seasons[i].(chapters := cs)]))
         == multiset(AllChapters(seasons)) - multiset(seasons[i].chapters) + multiset(cs)
  {
    var n := |seasons|;
    var u := seasons[i := seasons[i].(chapters := cs)];
    var pre := AllChapters(seasons[..n - 1]);
    var old_ := multiset(seasons[i].chapters);
    assert AllChapters(seasons) == pre + seasons[n - 1].chapters;
    assert AllChapters(u) == AllChapters(u[..n - 1]) + u[n - 1].chapters;
    if i == n - 1 {
      assert u[..n - 1] == seasons[..n - 1];
      assert multiset(AllChapters(u)) == multiset(pre) + multiset(cs);
      assert multiset(AllChapters(seasons)) == multiset(pre) + old_;
    } else {
      var last := multiset(seasons[n - 1].chapters);
      assert u[..n - 1] == seasons[..n - 1][i := seasons[i].(chapters := cs)];
      assert u[n - 1] == seasons[n - 1];
      AllChaptersUpdate(seasons[..n - 1], i, cs);
      assert old_ <= multiset(pre) by {
        ChaptersIncluded(seasons[..n - 1], i);
      }
      assert multiset(AllChapters(u)) == multiset(pre) - old_ + multiset(cs) + last;
      assert multiset(AllChapters(seasons)) == multiset(pre) + last;
      MultisetShift(multiset(pre), old_, multiset(cs), last);
    }
  }

  /** Taking out a part and adding other elements commutes with adding more. */
  lemma MultisetShift<T>(a: multiset<T>, b: multiset<T>, c: multiset<T>, d: multiset<T>)
    requires b <= a
    ensures a - b + c + d == a + d - b + c
  {
  }

  lemma {:induction false} ChaptersIncluded(seasons: seq<Season>, i: nat)
    requires i < |seasons|
    ensures multiset(seasons[i].chapters) <= multiset(AllChapters(seasons))
  {
    var n := |seasons|;
    if i < n - 1 {
      ChaptersIncluded(seasons[..n - 1], i);
    }
  }

  lemma AllChaptersCount(seasons: seq<Season>, i: nat, cs: seq<Chapter>)
    requires i < |seasons|
    ensures |AllChapters(seasons[i := seasons[i].(chapters := cs)])| == |AllChapters(seasons)| - |seasons[i].chapters| + |cs|
  {
    AllChaptersUpdate(seasons, i, cs);
    ChaptersIncluded(seasons, i);
    var u := seasons[i := seasons[i].(chapters := cs)];
    assert |multiset(AllChapters(u))| == |AllChapters(u)|;
    assert |multiset(AllChapters(seasons))| == |AllChapters(seasons)|;
  }

  // ------------------------------------------------------------------
  // Drag and drop.

  /** The dragged chapter. */
  datatype DragInfo = DragInfo(fromSeason: int, fromChapter: int)

  /** The text/plain payload handleDragStart writes, `{ seasonIndex, chapterIndex }`, as the parsed object's fields. */
  function DragPayload(si: int, ci: int): map<string, int> {
    map["seasonIndex" := si, "chapterIndex" := ci]
  }

  /** A field of a parsed object; None stands for `undefined`. */
  function Field(obj: map<string, int>, key: string): Option<int> {
    if key in obj then Some(obj[key]) else None
  }

  /** The source a drop destructures, field by field; None stands for `undefined`. */
  datatype DropSource = DropSource(season: Option<int>, chapter: Option<int>)

  /**
   * The source of a drop as the handlers compute it: dragInfo when set, else
   * the fields fromSeason and fromChapter of the parsed payload; None when
   * there is neither (an unreadable payload parses to null).
   */
  function DropSourceAsWritten(dragInfo: Option<DragInfo>, payload: Option<map<string, int>>): Option<DropSource> {
    if dragInfo.Some? then Some(DropSource(Some(dragInfo.value.fromSeason), Some(dragInfo.value.fromChapter)))
    else if payload.None? then None
    else Some(DropSource(Field(payload.value, "fromSeason"), Field(payload.value, "fromChapter")))
  }

  /**
   * Without dragInfo, the payload the drag wrote is read under names it was
   * not written with: the season comes out undefined, where the state would
   * have named the dragged chapter, and `newSeasons[undefined].chapters`
   * throws a TypeError.
   */
  lemma FallbackLosesSource(si: int, ci: int)
    ensures DropSourceAsWritten(None, Some(DragPayload(si, ci))) == Some(DropSource(None, None))
    ensures DropSourceAsWritten(Some(DragInfo(si, ci)), Some(DragPayload(si, ci))) == Some(DropSource(Some(si), Some(ci)))
  {
    assert "fromSeason" !in DragPayload(si, ci) && "fromChapter" !in DragPayload(si, ci);
  }

  /** The source read under the names the drag wrote: dragInfo when set, else seasonIndex and chapterIndex of the payload. */
  function DropSourceCorrected(dragInfo: Option<DragInfo>, payload: Option<map<string, int>>): Option<DragInfo> {
    if dragInfo.Some? then dragInfo
    else if payload.None? then None
    else
      var season := Field(payload.value, "seasonIndex");
      var chapter := Field(payload.value, "chapterIndex");
      if season.Some? && chapter.Some? then Some(DragInfo(season.value, chapter.value)) else None
  }

  /** Read under the right names, the payload gives back the dragged chapter, the same source the state holds. */
  lemma FallbackRecoversSource(si: int, ci: int)
    ensures DropSourceCorrected(None, Some(DragPayload(si, ci))) == Some(DragInfo(si, ci))
    ensures DropSourceCorrected(Some(DragInfo(si, ci)), Some(DragPayload(si, ci))) == Some(DragInfo(si, ci))
  {
    assert "seasonIndex" in DragPayload(si, ci) && "chapterIndex" in DragPayload(si, ci);
  }

  /** handleDropOnChapter: the chapter leaves its season and is inserted at the target index of the destination. */
  function DropOnChapterResult(seasons: seq<Season>, fs: nat, fc: nat, ts: nat, tc: int): (r: seq<Season>)
    requires fs < |seasons| && fc < |seasons[fs].chapters| && ts < |seasons|
    ensures |r| == |seasons|
  {
    var moved := seasons[fs].chapters[fc];
    var removed := seasons[fs := seasons[fs].(chapters := RemoveAt(seasons[fs].chapters, fc))];
    var dest := removed[ts].chapters;
    removed[ts := removed[ts].(chapters := InsertAt(dest, SpliceStart(|dest|, tc), moved))]
  }

  /** A drop moves a chapter and loses or duplicates none. */
  lemma DropOnChapterPermutes(seasons: seq<Season>, fs: nat, fc: nat, ts: nat, tc: int)
    requires fs < |seasons| && fc < |seasons[fs].chapters| && ts < |seasons|
    ensures multiset(AllChapters(DropOnChapterResult(seasons, fs, fc, ts, tc))) == multiset(AllChapters(seasons))
  {
    var moved := seasons[fs].chapters[fc];
    var rm := RemoveAt(seasons[fs].chapters, fc);
    var removed := seasons[fs := seasons[fs].(chapters := rm)];
    AllChaptersUpdate(seasons, fs, rm);
    ChaptersIncluded(seasons, fs);
    var dest := removed[ts].chapters;
    var ins := InsertAt(dest, SpliceStart(|dest|, tc), moved);
    AllChaptersUpdate(removed, ts, ins);
    ChaptersIncluded(removed, ts);
  }

  /**
   * Within one season, a chapter dropped on a later chapter lands just after
   * it, and one dropped on an earlier chapter lands just before it.
   */
  lemma DropWithinSeason(seasons: seq<Season>, s: nat, fc: nat, tc: nat)
    requires s < |seasons| && fc < |seasons[s].chapters| && tc < |seasons[s].chapters| && fc != tc
    ensures var cs := seasons[s].chapters; var r := DropOnChapterResult(seasons, s, fc, s, tc)[s].chapters;
      && r[tc] == cs[fc]
      && (fc < tc ==> r[tc - 1] == cs[tc])
      && (tc < fc ==> r[tc + 1] == cs[tc])
  {
  }

  /** handleDropOnSeason: the chapter leaves its season and goes to the end of the destination. */
  function DropOnSeasonResult(seasons: seq<Season>, fs: nat, fc: nat, ts: nat): (r: seq<Season>)
    requires fs < |seasons| && fc < |seasons[fs].chapters| && ts < |seasons|
    ensures |r| == |seasons|
  {
    var moved := seasons[fs].chapters[fc];
    var removed := seasons[fs := seasons[fs].(chapters := RemoveAt(seasons[fs].chapters, fc))];
    removed[ts := removed[ts].(chapters := removed[ts].chapters + [moved])]
  }

  lemma DropOnSeasonMultiset(seasons: seq<Season>, fs: nat, fc: nat, ts: nat)
    requires fs < |seasons| && fc < |seasons[fs].chapters| && ts < |seasons|
    ensures multiset(AllChapters(DropOnSeasonResult(seasons, fs, fc, ts))) == multiset(AllChapters(seasons))
  {
    var moved := seasons[fs].chapters[fc];
    var rm := RemoveAt(seasons[fs].chapters, fc);
    var removed := seasons[fs := seasons[fs].(chapters := rm)];
    AllChaptersUpdate(seasons, fs, rm);
    ChaptersIncluded(seasons, fs);
    AllChaptersUpdate(removed, ts, removed[ts].chapters + [moved]);
    ChaptersIncluded(removed, ts);
  }

  /** A drop on a season loses or duplicates no chapter, and the dragged chapter ends the destination season. */
  lemma DropOnSeasonPermutes(seasons: seq<Season>, fs: nat, fc: nat, ts: nat)
    requires fs < |seasons| && fc < |seasons[fs].chapters| && ts < |seasons|
    ensures multiset(AllChapters(DropOnSeasonResult(seasons, fs, fc, ts))) == multiset(AllChapters(seasons))
    ensures |AllChapters(DropOnSeasonResult(seasons, fs, fc, ts))| == |AllChapters(seasons)|
    ensures var r := DropOnSeasonResult(seasons, fs, fc, ts)[ts].chapters; r[|r| - 1] == seasons[fs].chapters[fc]
  {
    DropOnSeasonMultiset(seasons, fs, fc, ts);
    var r := AllChapters(DropOnSeasonResult(seasons, fs, fc, ts));
    assert |multiset(r)| == |r|;
    assert |multiset(AllChapters(seasons))| == |AllChapters(seasons)|;
  }

  // ------------------------------------------------------------------
  // The season and chapter editor.

  class VodEditor {
    var seasons: seq<Season>

    constructor (seasons: seq<Season>)
      ensures this.seasons == seasons
    {
      this.seasons := seasons;
    }

    /** handleAddSeason: a new empty season numbered one past the count. */
    method AddSeason()
      modifies this
      ensures seasons == old(seasons) + [Season(|old(seasons)| + 1, "Temporada " + Numbers.Decimal(|old(seasons)| + 1), [])]
    {
      var k := |seasons| + 1;
      seasons := seasons + [Season(k, "Temporada " + Numbers.Decimal(k), [])];
    }

    /** handleRemoveSeason: drops that index only; the others keep their numbers. */
    method RemoveSeason(index: int)
      modifies this
      ensures 0 <= index < |old(seasons)| ==> seasons == old(seasons)[..index] + old(seasons)[index + 1..]
      ensures !(0 <= index < |old(seasons)|) ==> seasons == old(seasons)
    {
      var kept: seq<Season> := [];
      var i := 0;
      while i < |seasons|
        invariant 0 <= i <= |seasons|
        invariant 0 <= index < i ==> kept == seasons[..index] + seasons[index + 1..i]
        invariant !(0 <= index < i) ==> kept == seasons[..i]
      {
        if i != index {
          kept := kept + [seasons[i]];
        }
        i := i + 1;
      }
      assert seasons[..|seasons|] == seasons;
      seasons := kept;
    }

    /** handleAddChapter: appends "Capítulo k" with an empty URL, k one past the count. */
    method AddChapter(si: nat)
      requires si < |seasons|
      modifies this
      ensures var cs := old(seasons)[si].chapters;
        seasons == old(seasons)[si := old(seasons)[si].(chapters := cs + [Chapter("Capítulo " + Numbers.Decimal(|cs| + 1), "")])]
    {
      var season := seasons[si];
      var cs := season.chapters + [Chapter("Capítulo " + Numbers.Decimal(|season.chapters| + 1), "")];
      seasons := seasons[si := season.(chapters := cs)];
    }

    /** handleRemoveChapter: `splice(chapterIndex, 1)` on that season. */
    method RemoveChapter(si: nat, ci: int)
      requires si < |seasons|
      modifies this
      ensures var cs := old(seasons)[si].chapters; var k := SpliceStart(|cs|, ci);
        && (k < |cs| ==> seasons == old(seasons)[si := old(seasons)[si].(chapters := RemoveAt(cs, k))])
        && (k == |cs| ==> seasons == old(seasons))
    {
      var cs := seasons[si].chapters;
      var k := SpliceStart(|cs|, ci);
      if k < |cs| {
        seasons := seasons[si := seasons[si].(chapters := RemoveAt(cs, k))];
      } else {
        assert seasons[si := seasons[si].(chapters := cs)] == seasons;
      }
    }

    /** handleMoveChapterUp: swaps with the previous chapter; nothing for the first. */
    method MoveChapterUp(si: nat, ci: int)
      requires si < |seasons| && ci < |seasons[si].chapters|
      modifies this
      ensures ci <= 0 ==> seasons == old(seasons)
      ensures ci > 0 ==> seasons == old(seasons)[si := old(seasons)[si].(chapters := Swapped(old(seasons)[si].chapters, ci - 1, ci))]
      ensures multiset(AllChapters(seasons)) == multiset(AllChapters(old(seasons)))
    {
      if ci <= 0 {
        return;
      }
      var cs := seasons[si].chapters;
      var tmp := cs[ci - 1];
      cs := cs[ci - 1 := cs[ci]];
      cs := cs[ci := tmp];
      SwappedPermutes(seasons[si].chapters, ci - 1, ci);
      AllChaptersUpdate(seasons, si, cs);
      ChaptersIncluded(seasons, si);
      seasons := seasons[si := seasons[si].(chapters := cs)];
    }

    /** handleMoveChapterDown: swaps with the next chapter; nothing for the last. */
    method MoveChapterDown(si: nat, ci: nat)
      requires si < |seasons|
      modifies this
      ensures ci >= |old(seasons)[si].chapters| - 1 ==> seasons == old(seasons)
      ensures ci < |old(seasons)[si].chapters| - 1 ==>
        seasons == old(seasons)[si := old(seasons)[si].(chapters := Swapped(old(seasons)[si].chapters, ci + 1, ci))]
      ensures multiset(AllChapters(seasons)) == multiset(AllChapters(old(seasons)))
    {
      var cs := seasons[si].chapters;
      if ci >= |cs| - 1 {
        return;
      }
      var tmp := cs[ci + 1];
      cs := cs[ci + 1 := cs[ci]];
      cs := cs[ci := tmp];
      SwappedPermutes(seasons[si].chapters, ci + 1, ci);
      AllChaptersUpdate(seasons, si, cs);
      ChaptersIncluded(seasons, si);
      seasons := seasons[si := seasons[si].(chapters := cs)];
    }

    /** handleDropOnChapter: nothing without a drag or onto the chapter itself; `from` is the source as DropSourceCorrected reads it. */
    method DropOnChapter(from: Option<DragInfo>, ts: nat, tc: int)
      requires from.Some? ==> 0 <= from.value.fromSeason < |seasons| && 0 <= from.value.fromChapter < |seasons[from.value.fromSeason].chapters|
      requires ts < |seasons|
      modifies this
      ensures from.None? || (from.value.fromSeason == ts && from.value.fromChapter == tc) ==> seasons == old(seasons)
      ensures from.Some? && !(from.value.fromSeason == ts && from.value.fromChapter == tc) ==>
        seasons == DropOnChapterResult(old(seasons), from.value.fromSeason, from.value.fromChapter, ts, tc)
      ensures multiset(AllChapters(seasons)) == multiset(AllChapters(old(seasons)))
    {
      if from.None? {
        return;
      }
      var fs, fc := from.value.fromSeason, from.value.fromChapter;
      if fs == ts && fc == tc {
        return;
      }
      DropOnChapterPermutes(seasons, fs, fc, ts, tc);
      var newSeasons := seasons;
      var src := newSeasons[fs].chapters;
      var moved := src[fc];
      newSeasons := newSeasons[fs := newSeasons[fs].(chapters := RemoveAt(src, fc))];
      var dest := newSeasons[ts].chapters;
      var insertIndex := tc;
      newSeasons := newSeasons[ts := newSeasons[ts].(chapters := InsertAt(dest, SpliceStart(|dest|, insertIndex), moved))];
      seasons := newSeasons;
    }

    /** handleDropOnSeason: nothing without a drag; `from` is the source as DropSourceCorrected reads it. */
    method DropOnSeason(from: Option<DragInfo>, ts: nat)
      requires from.Some? ==> 0 <= from.value.fromSeason < |seasons| && 0 <= from.value.fromChapter < |seasons[from.value.fromSeason].chapters|
      requires ts < |seasons|
      modifies this
      ensures from.None? ==> seasons == old(seasons)
      ensures from.Some? ==> seasons == DropOnSeasonResult(old(seasons), from.value.fromSeason, from.value.fromChapter, ts)
      ensures |AllChapters(seasons)| == |AllChapters(old(seasons))|
    {
      if from.None? {
        return;
      }
      var fs, fc := from.value.fromSeason, from.value.fromChapter;
      DropOnSeasonPermutes(seasons, fs, fc, ts);
      var newSeasons := seasons;
      var moved := newSeasons[fs].chapters[fc];
      newSeasons := newSeasons[fs := newSeasons[fs].(chapters := RemoveAt(newSeasons[fs].chapters, fc))];
      newSeasons := newSeasons[ts := newSeasons[ts].(chapters := newSeasons[ts].chapters + [moved])];
      seasons := newSeasons;
    }
  }

  // ------------------------------------------------------------------
  // Validation before saving.

  /** The fields of the VOD form that submitVodForm checks. */
  datatype VodForm = VodForm(title: string, url: string, tipo: string, seasons: seq<Season>)

  predicate ChapterComplete(c: Chapter) {
    c.title != "" && c.url != ""
  }

  /** The message for the first season that is empty or has an incomplete chapter. */
  function SeasonError(seasons: seq<Season>): Option<string> {
    if seasons == [] then None
    else if seasons[0].chapters == [] then
      Some("La temporada " + Numbers.Decimal(seasons[0].seasonNumber) + " debe tener al menos un capítulo.")
    else if exists c | c in seasons[0].chapters :: !ChapterComplete(c) then
      Some("Todos los capítulos en la Temporada " + Numbers.Decimal(seasons[0].seasonNumber) + " deben tener título y URL.")
    else SeasonError(seasons[1..])
  }

  /** The validation message of submitVodForm, or none when the form may be saved. */
  function VodError(form: VodForm): Option<string> {
    if form.tipo != "pelicula" then
      if form.title == "" || form.tipo == "" then Some("Título y Tipo son obligatorios.")
      else if form.seasons == [] then Some("Debe agregar al menos una temporada para este tipo de contenido.")
      else SeasonError(form.seasons)
    else if form.title == "" || form.url == "" || form.tipo == "" then Some("Título, URL y Tipo son obligatorios.")
    else None
  }

  lemma {:induction false} SeasonErrorNone(seasons: seq<Season>)
    ensures SeasonError(seasons).None? <==>
      forall i :: 0 <= i < |seasons| ==> seasons[i].chapters != [] && forall c :: c in seasons[i].chapters ==> ChapterComplete(c)
  {
    if seasons != [] {
      SeasonErrorNone(seasons[1..]);
      assert forall i :: 1 <= i < |seasons| ==> seasons[i] == seasons[1..][i - 1];
    }
  }

  /**
   * A series-like item is accepted exactly when it has a title, a type, at
   * least one season, no empty season and no chapter without title or URL;
   * a film exactly when it has a title, a URL and a type.
   */
  lemma VodAcceptedIff(form: VodForm)
    ensures VodError(form).None? <==>
      if form.tipo != "pelicula" then
        && form.title != "" && form.tipo != "" && form.seasons != []
        && forall i :: 0 <= i < |form.seasons| ==>
             form.seasons[i].chapters != [] && forall c :: c in form.seasons[i].chapters ==> ChapterComplete(c)
      else form.title != "" && form.url != "" && form.tipo != ""
  {
    SeasonErrorNone(form.seasons);
  }

  /** The validation of submitVodForm, with its loop over the seasons and early returns. */
  method ValidateVod(form: VodForm) returns (error: Option<string>)
    ensures error == VodError(form)
  {
    if form.tipo != "pelicula" {
      if form.title == "" || form.tipo == "" {
        return Some("Título y Tipo son obligatorios.");
      }
      if |form.seasons| == 0 {
        return Some("Debe agregar al menos una temporada para este tipo de contenido.");
      }
      var i := 0;
      while i < |form.seasons|
        invariant 0 <= i <= |form.seasons|
        invariant SeasonError(form.seasons) == SeasonError(form.seasons[i..])
      {
        var season := form.seasons[i];
        assert form.seasons[i..][1..] == form.seasons[i + 1..];
        if |season.chapters| == 0 {
          return Some("La temporada " + Numbers.Decimal(season.seasonNumber) + " debe tener al menos un capítulo.");
        }
        var invalid := 0;
        var j := 0;
        while j < |season.chapters|
          invariant 0 <= j <= |season.chapters|
          invariant invalid == 0 <==> forall k :: 0 <= k < j ==> ChapterComplete(season.chapters[k])
        {
          if !ChapterComplete(season.chapters[j]) {
            invalid := invalid + 1;
          }
          j := j + 1;
        }
        if invalid > 0 {
          return Some("Todos los capítulos en la Temporada " + Numbers.Decimal(season.seasonNumber) + " deben tener título y URL.");
        }
        i := i + 1;
      }
      return None;
    } else {
      if form.title == "" || form.url == "" || form.tipo == "" {
        return Some("Título, URL y Tipo son obligatorios.");
      }
      return None;
    }
  }

  // ------------------------------------------------------------------
  // Plans, genres, selection and paging.

  /** `p === "basico" ? "gplay" : p` */
  function RenamePlan(p: string): string {
    if p == "basico" then "gplay" else p
  }

  /** The plans sent on save: old names renamed, unknown plans dropped, order kept. */
  function PlansToSend(plans: seq<string>): (r: seq<string>)
    ensures forall p :: p in r ==> p in AvailablePlans
    ensures |r| <= |plans|
  {
    if plans == [] then []
    else
      var p := RenamePlan(plans[0]);
      (if p in AvailablePlans then [p] else []) + PlansToSend(plans[1..])
  }

  /** A plan is kept exactly when it is known, and "basico" comes back as "gplay". */
  lemma {:induction false} PlansToSendMembership(plans: seq<string>, p: string)
    ensures p in PlansToSend(plans) <==> p in AvailablePlans && (p in plans || (p == "gplay" && "basico" in plans))
  {
    if plans != [] {
      PlansToSendMembership(plans[1..], p);
      assert plans == [plans[0]] + plans[1..];
    }
  }

  /** The plan field of a stored video: a list, a single value, or absent. */
  datatype StoredPlans = PlanList(plans: seq<string>) | PlanOne(plan: string) | NoPlans

  /** The plans put in the form when editing a video. */
  function PlansForForm(stored: StoredPlans): (r: seq<string>)
    ensures forall p :: p in r ==> p in AvailablePlans
  {
    match stored
    case PlanList(ps) => PlansToSend(ps)
    case PlanOne(p) => if p != "" then PlansToSend([p]) else []
    case NoPlans => []
  }

  function TrimAll(pieces: seq<string>): (r: seq<string>)
    ensures |r| == |pieces| && forall k :: 0 <= k < |r| ==> r[k] == Text.Trim(pieces[k])
  {
    seq(|pieces|, k requires 0 <= k < |pieces| => Text.Trim(pieces[k]))
  }

  function NonEmpty(pieces: seq<string>): (r: seq<string>)
    ensures forall g :: g in r ==> g != "" && g in pieces
    ensures forall g :: g in pieces && g != "" ==> g in r
  {
    if pieces == [] then [] else (if pieces[0] != "" then [pieces[0]] else []) + NonEmpty(pieces[1..])
  }

  /** The genres sent on save: the comma-separated list, each trimmed, empties dropped. */
  function Genres(field: string): seq<string> {
    NonEmpty(TrimAll(Text.Split(field, ',')))
  }

  lemma NoSeparatorInSlice(s: string, i: nat, j: nat, c: char)
    requires i <= j <= |s| && c !in s
    ensures c !in s[i..j]
  {
    assert forall k :: 0 <= k < j - i ==> s[i..j][k] == s[i + k];
  }

  /** Every genre is non-empty, has no white space at either end and holds no comma. */
  lemma GenresAreClean(field: string)
    ensures forall g :: g in Genres(field) ==> g != "" && Text.Trim(g) == g && ',' !in g
  {
    var pieces := Text.Split(field, ',');
    forall g | g in Genres(field)
      ensures g != "" && Text.Trim(g) == g && ',' !in g
    {
      var k :| 0 <= k < |pieces| && TrimAll(pieces)[k] == g;
      Text.TrimIdempotent(pieces[k]);
      Text.TrimShape(pieces[k]);
      var i, j :| 0 <= i <= j <= |pieces[k]| && Text.Trim(pieces[k]) == pieces[k][i..j];
      NoSeparatorInSlice(pieces[k], i, j, ',');
    }
  }

  /** handleVodSelect: removes the id when selected, appends it otherwise. */
  function Toggle(selected: seq<string>, id: string): (r: seq<string>)
  {
    if id in selected then Without(selected, id) else selected + [id]
  }

  function Without(s: seq<string>, id: string): (r: seq<string>)
    ensures id !in r
    ensures forall x :: x != id ==> (x in r <==> x in s)
  {
    if s == [] then [] else (if s[0] != id then [s[0]] else []) + Without(s[1..], id)
  }

  lemma {:induction false} WithoutAbsent(s: seq<string>, id: string)
    requires id !in s
    ensures Without(s, id) == s
  {
    if s != [] {
      WithoutAbsent(s[1..], id);
    }
  }

  /** Toggling flips the id's membership, leaves every other id alone, and twice restores a list without it. */
  lemma ToggleFlips(selected: seq<string>, id: string)
    ensures id in Toggle(selected, id) <==> id !in selected
    ensures forall x :: x != id ==> (x in Toggle(selected, id) <==> x in selected)
    ensures id !in selected ==> Toggle(Toggle(selected, id), id) == selected
  {
    if id !in selected {
      WithoutAbsent(selected, id);
      assert Without(selected + [id], id) == Without(selected, id) by {
        WithoutAppend(selected, id);
      }
    }
  }

  lemma {:induction false} WithoutAppend(s: seq<string>, id: string)
    ensures Without(s + [id], id) == Without(s, id)
  {
    if s != [] {
      WithoutAppend(s[1..], id);
      assert (s + [id])[1..] == s[1..] + [id];
    }
  }

  /** `Math.ceil(total / 50)`, with a missing total read as 0. */
  function TotalPages(total: Option<nat>): (r: nat)
    ensures var t := total.GetOr(0); r * VodsPerPage >= t && (r == 0 || (r - 1) * VodsPerPage < t)
  {
    (total.GetOr(0) + VodsPerPage - 1) / VodsPerPage
  }
}
