/**
 * The season and chapter lists edited by the administration forms, and the
 * list edits they are built from, with JavaScript's splice and filter
 * semantics.
 */
module SeasonEdits {

  datatype Chapter = Chapter(title: string, url: string)

  /** A season as the video form and the series editor hold it. */
  datatype FormSeason = FormSeason(seasonNumber: nat, chapters: seq<Chapter>)

  const EmptyChapter := Chapter("", "")

  /** Where splice starts for a list of length `len`: negative starts count from the end. */
  function SpliceStart(len: nat, start: int): (r: nat)
    ensures r <= len
    ensures 0 <= start <= len ==> r == start
    ensures start < 0 && len + start >= 0 ==> r == len + start
  {
    if start < 0 then (if len + start > 0 then len + start else 0)
    else if start < len then start else len
  }

  function RemoveAt<T>(s: seq<T>, i: nat): (r: seq<T>)
    requires i < |s|
    ensures |r| == |s| - 1
    ensures forall k :: 0 <= k < i ==> r[k] == s[k]
    ensures forall k :: i <= k < |r| ==> r[k] == s[k + 1]
    ensures multiset(r) == multiset(s) - multiset{s[i]}
  {
    assert s == s[..i] + [s[i]] + s[i + 1..];
    s[..i] + s[i + 1..]
  }

  function InsertAt<T>(s: seq<T>, i: nat, x: T): (r: seq<T>)
    requires i <= |s|
    ensures |r| == |s| + 1 && r[i] == x
    ensures forall k :: 0 <= k < i ==> r[k] == s[k]
    ensures forall k :: i < k < |r| ==> r[k] == s[k - 1]
    ensures multiset(r) == multiset(s) + multiset{x}
  {
    assert s == s[..i] + s[i..];
    s[..i] + [x] + s[i..]
  }

  /** `items.filter((_, i) => i !== index)`: an index outside the list removes nothing. */
  function FilterOutIndex<T>(s: seq<T>, index: int): (r: seq<T>)
    ensures 0 <= index < |s| ==> r == RemoveAt(s, index)
    ensures !(0 <= index < |s|) ==> r == s
  {
    if 0 <= index < |s| then s[..index] + s[index + 1..] else s
  }

  function Swapped<T>(s: seq<T>, i: nat, j: nat): (r: seq<T>)
    requires i < |s| && j < |s|
    ensures |r| == |s| && r[i] == s[j] && r[j] == s[i]
    ensures forall k :: 0 <= k < |s| && k != i && k != j ==> r[k] == s[k]
  {
    s[i := s[j]][j := s[i]]
  }

  lemma SwappedPermutes<T>(s: seq<T>, i: nat, j: nat)
    requires i < |s| && j < |s|
    ensures multiset(Swapped(s, i, j)) == multiset(s)
  {
    var t := s[i := s[j]];
    assert multiset(t) == multiset(s) - multiset{s[i]} + multiset{s[j]};
  }

  /** `seasons.map((season, index) => ({...season, seasonNumber: index + 1}))` */
  function Renumber(seasons: seq<FormSeason>): (r: seq<FormSeason>)
    ensures |r| == |seasons|
    ensures forall k :: 0 <= k < |r| ==> r[k] == seasons[k].(seasonNumber := k + 1)
  {
    if seasons == [] then []
    else Renumber(seasons[..|seasons| - 1]) + [seasons[|seasons| - 1].(seasonNumber := |seasons|)]
  }

  /** The seasons are numbered 1..n in order. */
  predicate NumberedInOrder(seasons: seq<FormSeason>) {
    forall k :: 0 <= k < |seasons| ==> seasons[k].seasonNumber == k + 1
  }

  /**
   * handleRemoveSeason: the season is dropped, the others keep their
   * chapters in order and are numbered 1..n.
   */
  function RemoveSeason(seasons: seq<FormSeason>, index: int): (r: seq<FormSeason>)
    ensures NumberedInOrder(r)
    ensures 0 <= index < |seasons| ==> |r| == |seasons| - 1
    ensures 0 <= index < |seasons| ==> forall k :: 0 <= k < |r| ==>
      r[k].chapters == seasons[if k < index then k else k + 1].chapters
    ensures !(0 <= index < |seasons|) ==> r == Renumber(seasons)
  {
    Renumber(FilterOutIndex(seasons, index))
  }

  /** handleAddSeason of the video form and the series editor: season len+1 with one empty chapter. */
  function AddSeason(seasons: seq<FormSeason>): (r: seq<FormSeason>)
    ensures |r| == |seasons| + 1
    ensures NumberedInOrder(seasons) ==> NumberedInOrder(r)
    ensures r[..|seasons|] == seasons
    ensures r[|seasons|] == FormSeason(|seasons| + 1, [EmptyChapter])
  {
    seasons + [FormSeason(|seasons| + 1, [EmptyChapter])]
  }

  /** Replaces the chapters of one season. */
  function WithChapters(seasons: seq<FormSeason>, si: nat, cs: seq<Chapter>): (r: seq<FormSeason>)
    requires si < |seasons|
    ensures |r| == |seasons| && r[si].chapters == cs && r[si].seasonNumber == seasons[si].seasonNumber
    ensures forall k :: 0 <= k < |r| && k != si ==> r[k] == seasons[k]
  {
    seasons[si := seasons[si].(chapters := cs)]
  }
}
