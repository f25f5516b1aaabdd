/**
 * Array.prototype.filter and the order-preserving subsequence relation the
 * search and filter screens promise of their results.
 */
module Lists {

  /** `a` is `b` with some elements left out, the rest in their order. */
  ghost predicate SubsequenceOf<T>(a: seq<T>, b: seq<T>)
    decreases |b|
  {
    if a == [] then true
    else if b == [] then false
    else (a[0] == b[0] && SubsequenceOf(a[1..], b[1..])) || SubsequenceOf(a, b[1..])
  }

  /** Array.prototype.filter with a predicate that reads nothing. */
  function Filter<T>(s: seq<T>, keep: T -> bool): (r: seq<T>)
    ensures |r| <= |s|
    ensures forall x :: x in r ==> x in s && keep(x)
  {
    if s == [] then [] else (if keep(s[0]) then [s[0]] else []) + Filter(s[1..], keep)
  }

  /** Each element that passes is kept as often as it occurs; the others not at all. */
  lemma {:induction false} FilterMultiset<T>(s: seq<T>, keep: T -> bool)
    ensures forall x :: x in s ==> multiset(Filter(s, keep))[x] == if keep(x) then multiset(s)[x] else 0
  {
    if s != [] {
      FilterMultiset(s[1..], keep);
      assert s == [s[0]] + s[1..];
      var head := if keep(s[0]) then [s[0]] else [];
      assert Filter(s, keep) == head + Filter(s[1..], keep);
      forall x | x in s
        ensures multiset(Filter(s, keep))[x] == if keep(x) then multiset(s)[x] else 0
      {
        if x !in s[1..] {
          assert multiset(s[1..])[x] == 0;
          assert x !in Filter(s[1..], keep);
        }
      }
    }
  }

  /**
   * `r` is `s` with exactly the elements that fail `keep` left out: the
   * ones that pass, in their order and each as often as in `s`.
   */
  ghost predicate FilteredBy<T>(r: seq<T>, s: seq<T>, keep: T -> bool) {
    && SubsequenceOf(r, s)
    && (forall x :: x in r ==> x in s)
    && (forall x :: x in s ==> multiset(r)[x] == if keep(x) then multiset(s)[x] else 0)
  }

  lemma FilterExact<T>(s: seq<T>, keep: T -> bool)
    ensures FilteredBy(Filter(s, keep), s, keep)
  {
    FilterIsSubsequence(s, keep);
    FilterMultiset(s, keep);
  }

  /** A test every element passes filters nothing out. */
  lemma FilteredBySelf<T>(s: seq<T>, keep: T -> bool)
    requires forall x :: x in s ==> keep(x)
    ensures FilteredBy(s, s, keep)
  {
    PrefixIsSubsequence(s, |s|);
    assert s[..|s|] == s;
  }

  /** Filtering by one test and then by another filters by both. */
  lemma FilteredByThen<T>(a: seq<T>, b: seq<T>, c: seq<T>, first: T -> bool, second: T -> bool, both: T -> bool)
    requires FilteredBy(b, c, first) && FilteredBy(a, b, second)
    requires forall x :: x in c ==> (both(x) <==> first(x) && second(x))
    ensures FilteredBy(a, c, both)
  {
    SubsequenceTransitive(a, b, c);
    forall x | x in c ensures multiset(a)[x] == if both(x) then multiset(c)[x] else 0 {
      if x !in b {
        assert multiset(b)[x] == 0;
        assert x !in a;
      }
    }
  }

  /**
   * `r` is the first `n` elements of `s` that pass `keep`, or all of them
   * when fewer pass: exactly the passing elements of some prefix of `s`,
   * where that prefix is the whole of `s` or `r` already holds `n`.
   */
  ghost predicate FirstPassing<T>(r: seq<T>, s: seq<T>, keep: T -> bool, n: nat) {
    |r| <= n && exists k :: 0 <= k <= |s| && (k == |s| || |r| == n) && FilteredBy(r, s[..k], keep)
  }

  /** Every prefix of a filtered list is the filter of a prefix of the input. */
  lemma {:induction false} FilterPrefix<T>(s: seq<T>, keep: T -> bool, m: nat) returns (k: nat)
    requires m <= |Filter(s, keep)|
    ensures k <= |s| && Filter(s[..k], keep) == Filter(s, keep)[..m]
    decreases |s|
  {
    if m == |Filter(s, keep)| {
      k := |s|;
      assert s[..k] == s;
    } else {
      var init := s[..|s| - 1];
      assert s == init + [s[|s| - 1]];
      FilterAppend(init, s[|s| - 1], keep);
      k := FilterPrefix(init, keep, m);
      assert init[..k] == s[..k];
    }
  }

  /** Taking the first `n` of a filter gives the first `n` passing elements. */
  lemma TakeFilterFirstPassing<T>(s: seq<T>, keep: T -> bool, n: nat)
    ensures FirstPassing(Take(Filter(s, keep), n), s, keep, n)
  {
    var all := Filter(s, keep);
    if |all| <= n {
      assert s[..|s|] == s;
      FilterExact(s, keep);
    } else {
      var k := FilterPrefix(s, keep, n);
      FilterExact(s[..k], keep);
      assert Take(all, n) == Filter(s[..k], keep);
    }
  }

  /** Every element that passes the test is kept. */
  lemma {:induction false} FilterKeeps<T>(s: seq<T>, keep: T -> bool, x: T)
    requires x in s && keep(x)
    ensures x in Filter(s, keep)
  {
    if s[0] != x {
      FilterKeeps(s[1..], keep, x);
    }
  }

  /** The filtered list is an order-preserving subsequence of the input. */
  lemma {:induction false} FilterIsSubsequence<T>(s: seq<T>, keep: T -> bool)
    ensures SubsequenceOf(Filter(s, keep), s)
  {
    if s != [] {
      FilterIsSubsequence(s[1..], keep);
      var rest := Filter(s[1..], keep);
      if keep(s[0]) {
        assert Filter(s, keep) == [s[0]] + rest;
        assert ([s[0]] + rest)[1..] == rest;
      } else {
        assert Filter(s, keep) == rest;
        SkipOne(rest, s);
      }
    }
  }

  lemma SkipOne<T>(a: seq<T>, b: seq<T>)
    requires b != [] && SubsequenceOf(a, b[1..])
    ensures SubsequenceOf(a, b)
  {
  }

  /** Filtering a list extended by one element extends the result by that element when it passes. */
  lemma {:induction false} FilterAppend<T>(s: seq<T>, x: T, keep: T -> bool)
    ensures Filter(s + [x], keep) == Filter(s, keep) + (if keep(x) then [x] else [])
  {
    var tail := if keep(x) then [x] else [];
    if s == [] {
      assert [x][1..] == [];
    } else {
      var head := if keep(s[0]) then [s[0]] else [];
      FilterAppend(s[1..], x, keep);
      assert (s + [x])[0] == s[0] && (s + [x])[1..] == s[1..] + [x];
      calc {
        Filter(s + [x], keep);
        head + Filter(s[1..] + [x], keep);
        head + (Filter(s[1..], keep) + tail);
        { assert head + (Filter(s[1..], keep) + tail) == (head + Filter(s[1..], keep)) + tail; }
        Filter(s, keep) + tail;
      }
    }
  }

  /** A test every element passes keeps the whole list. */
  lemma {:induction false} FilterAllPass<T>(s: seq<T>, keep: T -> bool)
    requires forall x :: x in s ==> keep(x)
    ensures Filter(s, keep) == s
  {
    if s != [] {
      FilterAllPass(s[1..], keep);
    }
  }

  /** A prefix is a subsequence. */
  lemma {:induction false} PrefixIsSubsequence<T>(s: seq<T>, n: nat)
    requires n <= |s|
    ensures SubsequenceOf(s[..n], s)
  {
    if n > 0 {
      PrefixIsSubsequence(s[1..], n - 1);
      assert s[..n][1..] == s[1..][..n - 1];
    }
  }

  /** Subsequences compose. */
  lemma {:induction false} SubsequenceTransitive<T>(a: seq<T>, b: seq<T>, c: seq<T>)
    requires SubsequenceOf(a, b) && SubsequenceOf(b, c)
    ensures SubsequenceOf(a, c)
    decreases |c|
  {
    if a != [] {
      assert b != [] && c != [];
      if b[0] == c[0] && SubsequenceOf(b[1..], c[1..]) {
        if a[0] == b[0] && SubsequenceOf(a[1..], b[1..]) {
          SubsequenceTransitive(a[1..], b[1..], c[1..]);
        } else {
          SubsequenceTransitive(a, b[1..], c[1..]);
          SkipOne(a, c);
        }
      } else {
        SubsequenceTransitive(a, b, c[1..]);
        SkipOne(a, c);
      }
    }
  }

  /** `slice(0, n)`: the first n elements, or all of them when there are fewer. */
  function Take<T>(s: seq<T>, n: nat): (r: seq<T>)
    ensures |r| == if |s| <= n then |s| else n
    ensures |s| <= n ==> r == s
    ensures forall k :: 0 <= k < |r| ==> r[k] == s[k]
  {
    if |s| <= n then s else s[..n]
  }
}
