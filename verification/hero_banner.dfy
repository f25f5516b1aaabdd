/**
 * The home hero banner (src/components/HeroBanner.jsx): up to three featured
 * items shown one at a time, with forward and backward buttons.
 *
 * The random shuffle is a parameter: any reordering of the items.
 */
module HeroBanner {
  import opened Wrappers
  import Carousel

  /** handleNextItem: one step forward, nothing without items. */
  function NextItem(i: int, count: nat): (r: int)
    ensures count == 0 ==> r == i
    ensures count > 0 && 0 <= i < count ==> 0 <= r < count
    ensures count > 0 && 0 <= i < count ==> r == if i == count - 1 then 0 else i + 1
  {
    if count > 0 then
      Carousel.MovesStayInRange(i, count);
      Carousel.Next(i, count)
    else i
  }

  /** handlePrevItem: one step back, nothing without items. */
  function PrevItem(i: int, count: nat): (r: int)
    ensures count == 0 ==> r == i
    ensures count > 0 && 0 <= i < count ==> 0 <= r < count
    ensures count > 0 && 0 <= i < count ==> r == if i == 0 then count - 1 else i - 1
  {
    if count > 0 then
      Carousel.MovesStayInRange(i, count);
      Carousel.Prev(i, count)
    else i
  }

  /** A step back undoes a step forward and vice versa, also with no items, where neither moves. */
  lemma NextPrevInverse(i: int, count: nat)
    requires count == 0 || 0 <= i < count
    ensures PrevItem(NextItem(i, count), count) == i
    ensures NextItem(PrevItem(i, count), count) == i
  {
    if count > 0 {
      Carousel.PrevNextInverse(i, count);
    }
  }

  function Min(a: int, b: int): int {
    if a <= b then a else b
  }

  /**
   * A new item list: the first three of the shuffled items and the index
   * back at 0; an empty list changes nothing (`None`).
   */
  function Featured<T>(items: seq<T>, shuffled: seq<T>): (r: Option<(seq<T>, int)>)
    requires multiset(shuffled) == multiset(items)
    ensures r.None? <==> items == []
    ensures r.Some? ==> 1 <= |r.value.0| <= 3 && |r.value.0| == Min(3, |items|) && r.value.1 == 0
    ensures r.Some? ==> multiset(r.value.0) <= multiset(items)
  {
    if |items| > 0 then
      assert |shuffled| == |items| by {
        assert |multiset(shuffled)| == |multiset(items)|;
      }
      var chosen := shuffled[..Min(3, |shuffled|)];
      assert shuffled == chosen + shuffled[Min(3, |shuffled|)..];
      Some((chosen, 0))
    else None
  }
}
