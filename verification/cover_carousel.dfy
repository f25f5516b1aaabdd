/**
 * The cover carousel (src/components/CoverCarousel.jsx): three or four
 * shuffled items that advance on a timer and with the arrow buttons.
 *
 * The random shuffle is a parameter: any reordering of the items.
 */
module CoverCarousel {
  import opened Wrappers
  import Carousel

  function Min(a: int, b: int): int {
    if a <= b then a else b
  }

  function Max(a: int, b: int): int {
    if a >= b then a else b
  }

  /** `Math.min(4, Math.max(3, Math.floor(n / 3)))` */
  function DisplayCount(n: nat): (r: int)
    ensures r == 3 || r == 4
    ensures r == 4 <==> n >= 12
  {
    Min(4, Max(3, n / 3))
  }

  /**
   * A new item list: the first DisplayCount items of the shuffled list and
   * the index back at 0; an empty list changes nothing (`None`).
   */
  function Displayed<T>(items: seq<T>, shuffled: seq<T>): (r: Option<(seq<T>, int)>)
    requires multiset(shuffled) == multiset(items)
    ensures r.None? <==> items == []
    ensures r.Some? ==> |r.value.0| == Min(DisplayCount(|items|), |items|) && r.value.1 == 0
    ensures r.Some? ==> multiset(r.value.0) <= multiset(items)
  {
    if |items| > 0 then
      assert |shuffled| == |items| by {
        assert |multiset(shuffled)| == |multiset(items)|;
      }
      var count := DisplayCount(|items|);
      var chosen := shuffled[..Min(count, |shuffled|)];
      assert shuffled == chosen + shuffled[Min(count, |shuffled|)..];
      Some((chosen, 0))
    else None
  }

  /** How many covers are shown: all of up to three items, three of up to eleven, four from twelve on. */
  lemma ShownCount(n: nat)
    requires n > 0
    ensures n <= 3 ==> Min(DisplayCount(n), n) == n
    ensures 3 <= n < 12 ==> Min(DisplayCount(n), n) == 3
    ensures n >= 12 ==> Min(DisplayCount(n), n) == 4
  {
  }

  /** handleNext and the timer tick: one step forward. */
  function HandleNext(i: int, count: int): (r: int)
    requires count > 0
    ensures 0 <= i < count ==> 0 <= r < count && r == (if i == count - 1 then 0 else i + 1)
  {
    Carousel.MovesStayInRange(i, count);
    Carousel.Next(i, count)
  }

  /** handlePrev: one step back. */
  function HandlePrev(i: int, count: int): (r: int)
    requires count > 0
    ensures 0 <= i < count ==> 0 <= r < count && r == (if i == 0 then count - 1 else i - 1)
  {
    Carousel.MovesStayInRange(i, count);
    Carousel.Prev(i, count)
  }

  /** The timer tick is the same step as the forward button. */
  function AutoAdvance(i: int, count: int): (r: int)
    requires count > 0
    ensures r == HandleNext(i, count)
  {
    Carousel.Next(i, count)
  }
}
