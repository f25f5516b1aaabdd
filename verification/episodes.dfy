/**
 * The next-(season, chapter) rule used when an episode ends. The same rule is
 * written out in VideoPlayer.jsx (handleTimeUpdate and onEnded) and in
 * useElectronMpvProgress.js (the mpv-ended handler); all three use this
 * definition.
 *
 * A series is represented here by the number of chapters of each season.
 */
module Episodes {
  import opened Wrappers

  datatype Position = Position(season: int, chapter: int)

  /** The position names an existing chapter. */
  predicate ValidPosition(counts: seq<nat>, p: Position) {
    0 <= p.season < |counts| && 0 <= p.chapter < counts[p.season]
  }

  /**
   * The next chapter: the following one in the same season when that season
   * has more than chapter+1 chapters; otherwise chapter 0 of the following
   * season when one exists; otherwise none.
   */
  function NextEpisode(counts: seq<nat>, p: Position): (r: Option<Position>)
    ensures r.Some? && r.value.season == p.season ==>
      r.value.chapter == p.chapter + 1 && 0 <= p.season < |counts| && p.chapter + 1 < counts[p.season]
    ensures r.Some? && r.value.season != p.season ==>
      r.value == Position(p.season + 1, 0) && p.season + 1 < |counts|
      && !(0 <= p.season < |counts| && p.chapter + 1 < counts[p.season])
    ensures r.None? <==>
      !(0 <= p.season < |counts| && p.chapter + 1 < counts[p.season]) && p.season + 1 >= |counts|
  {
    if 0 <= p.season < |counts| && counts[p.season] > p.chapter + 1 then Some(Position(p.season, p.chapter + 1))
    else if |counts| > p.season + 1 then Some(Position(p.season + 1, 0))
    else None
  }

  /** The next season is chosen without looking at how many chapters it has. */
  lemma NextMayNameEmptySeason()
    ensures NextEpisode([1, 0], Position(0, 0)) == Some(Position(1, 0))
    ensures !ValidPosition([1, 0], Position(1, 0))
  {
  }

  // ------------------------------------------------------------------
  // The rule against the flattened chapter list that the native player gets.

  /** Sum of a list of counts. */
  function Sum(xs: seq<nat>): nat {
    if xs == [] then 0 else Sum(xs[..|xs| - 1]) + xs[|xs| - 1]
  }

  /** Index of a chapter in the list of all chapters, seasons in order. */
  function FlatIndex(counts: seq<nat>, p: Position): int
    requires 0 <= p.season <= |counts|
  {
    Sum(counts[..p.season]) + p.chapter
  }

  lemma SumStep(counts: seq<nat>, s: nat)
    requires s < |counts|
    ensures Sum(counts[..s + 1]) == Sum(counts[..s]) + counts[s]
  {
    assert counts[..s + 1][..s] == counts[..s];
  }

  /** With every season non-empty, each later season adds at least one chapter. */
  lemma {:induction false} SumGrows(counts: seq<nat>, i: nat, j: nat)
    requires i <= j <= |counts|
    requires forall k :: 0 <= k < |counts| ==> counts[k] > 0
    ensures Sum(counts[..j]) >= Sum(counts[..i]) + (j - i)
  {
    if i < j {
      SumGrows(counts, i, j - 1);
      SumStep(counts, j - 1);
    }
  }

  /**
   * When no season is empty, the next episode is exactly the next entry of
   * the flattened chapter list, and there is none only after the last entry.
   */
  lemma NextIsFlatSuccessor(counts: seq<nat>, p: Position)
    requires ValidPosition(counts, p)
    requires forall k :: 0 <= k < |counts| ==> counts[k] > 0
    ensures var r := NextEpisode(counts, p);
      && (r.Some? ==> ValidPosition(counts, r.value) && FlatIndex(counts, r.value) == FlatIndex(counts, p) + 1)
      && (r.None? <==> FlatIndex(counts, p) == Sum(counts) - 1)
  {
    var s := p.season;
    SumStep(counts, s);
    assert counts[..|counts|] == counts;
    SumGrows(counts, s + 1, |counts|);
    if s + 1 < |counts| {
      SumGrows(counts, s + 2, |counts|);
      SumStep(counts, s + 1);
    }
  }
}
