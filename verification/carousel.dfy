/**
 * The cyclic index of the rotating banners (src/components/HeroBanner.jsx
 * and src/components/CoverCarousel.jsx): `(i + 1) % n` forward and
 * `(i - 1 + n) % n` backward, with JavaScript's `%`.
 */
module Carousel {
  import opened JsMath

  function Next(i: int, n: int): int
    requires n > 0
  {
    JsRem(i + 1, n)
  }

  function Prev(i: int, n: int): int
    requires n > 0
  {
    JsRem(i - 1 + n, n)
  }

  /** From an index in [0, n) both moves stay in [0, n): forward wraps from the last to 0, backward from 0 to the last. */
  lemma MovesStayInRange(i: int, n: int)
    requires n > 0
    ensures 0 <= i < n ==> 0 <= Next(i, n) < n && 0 <= Prev(i, n) < n
    ensures 0 <= i < n ==> Next(i, n) == (if i == n - 1 then 0 else i + 1)
    ensures 0 <= i < n ==> Prev(i, n) == (if i == 0 then n - 1 else i - 1)
  {
    if 0 <= i < n {
      NextWraps(i, n);
      PrevWraps(i, n);
    }
  }

  lemma NextWraps(i: int, n: int)
    requires 0 <= i < n
    ensures Next(i, n) == (if i == n - 1 then 0 else i + 1)
  {
    if i == n - 1 {
      assert i + 1 == n;
    }
  }

  lemma PrevWraps(i: int, n: int)
    requires 0 <= i < n
    ensures Prev(i, n) == (if i == 0 then n - 1 else i - 1)
  {
    if 0 < i {
      assert i - 1 + n == 1 * n + (i - 1);
    }
  }

  /** Backward undoes forward and forward undoes backward. */
  lemma PrevNextInverse(i: int, n: int)
    requires n > 0 && 0 <= i < n
    ensures Prev(Next(i, n), n) == i
    ensures Next(Prev(i, n), n) == i
  {
    MovesStayInRange(i, n);
    MovesStayInRange(Next(i, n), n);
    MovesStayInRange(Prev(i, n), n);
  }
}
