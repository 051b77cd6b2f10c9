/**
 * Sequence operations the page borrows from Python and pandas: `list.index`,
 * `dropna`, `sorted(set(...))` on numbers and strings, and the stable
 * `sorted(..., key=..., reverse=True)` used to rank series.
 */
module Sequences {
  import opened Wrappers

  // ---------------------------------------------------------------------------
  // list.index and dropna
  // ---------------------------------------------------------------------------

  /** `xs.index(x)`: the first position of `x`, or None where Python raises ValueError. */
  function IndexOf<T(==,!new)>(xs: seq<T>, x: T): (r: Option<nat>)
    ensures r.None? <==> x !in xs
    ensures r.Some? ==> r.value < |xs| && xs[r.value] == x && x !in xs[..r.value]
  {
    if xs == [] then None
    else if xs[0] == x then Some(0)
    else match IndexOf(xs[1..], x)
      case None => None
      case Some(i) =>
        assert xs[1..][..i] == xs[1..i + 1];
        Some(i + 1)
  }

  /** `dropna()`: the present values of a column, in order. */
  function Present<T(!new)>(column: seq<Option<T>>): (r: seq<T>)
    ensures forall v :: v in r <==> Some(v) in column
    ensures |r| <= |column|
  {
    if column == [] then []
    else
      var rest := Present(column[1..]);
      assert forall v :: Some(v) in column <==> column[0] == Some(v) || Some(v) in column[1..];
      match column[0]
      case None => rest
      case Some(v) => [v] + rest
  }

  /** `dropna()` keeps each present value as often as the column holds it. */
  lemma {:induction false} PresentMultiplicity<T(!new)>(column: seq<Option<T>>, v: T)
    ensures multiset(Present(column))[v] == multiset(column)[Some(v)]
  {
    if column != [] {
      PresentMultiplicity(column[1..], v);
      assert column == [column[0]] + column[1..];
      var rest := Present(column[1..]);
      if column[0].Some? {
        assert Present(column) == [column[0].value] + rest;
      } else {
        assert Present(column) == rest;
      }
    }
  }

  // ---------------------------------------------------------------------------
  // Orders
  // ---------------------------------------------------------------------------

  ghost predicate StrictTotalOrder<T(!new)>(less: (T, T) -> bool)
  {
    && (forall a :: !less(a, a))
    && (forall a, b, c :: less(a, b) && less(b, c) ==> less(a, c))
    && (forall a, b :: a != b ==> less(a, b) || less(b, a))
  }

  /** Python's `<` on ints. */
  predicate IntLess(a: int, b: int)
  {
    a < b
  }

  /** Python's `<` on `str`: lexicographic by code point, a proper prefix first. */
  predicate StrLess(a: string, b: string)
  {
    if a == [] then b != []
    else if b == [] then false
    else if a[0] != b[0] then a[0] < b[0]
    else StrLess(a[1..], b[1..])
  }

  lemma IntLessIsStrictTotalOrder()
    ensures StrictTotalOrder(IntLess)
  {
  }

  lemma {:induction false} StrLessIrreflexive(a: string)
    ensures !StrLess(a, a)
  {
    if a != [] {
      StrLessIrreflexive(a[1..]);
    }
  }

  lemma {:induction false} StrLessTransitive(a: string, b: string, c: string)
    requires StrLess(a, b) && StrLess(b, c)
    ensures StrLess(a, c)
  {
    if a != [] && a[0] == b[0] && b[0] == c[0] {
      StrLessTransitive(a[1..], b[1..], c[1..]);
    }
  }

  lemma {:induction false} StrLessTotal(a: string, b: string)
    requires a != b
    ensures StrLess(a, b) || StrLess(b, a)
  {
    if a != [] && b != [] && a[0] == b[0] {
      assert a == [a[0]] + a[1..] && b == [b[0]] + b[1..];
      StrLessTotal(a[1..], b[1..]);
    }
  }

  lemma StrLessIsStrictTotalOrder()
    ensures StrictTotalOrder(StrLess)
  {
    forall a: string ensures !StrLess(a, a) {
      StrLessIrreflexive(a);
    }
    forall a: string, b: string, c: string | StrLess(a, b) && StrLess(b, c)
      ensures StrLess(a, c)
    {
      StrLessTransitive(a, b, c);
    }
    forall a: string, b: string | a != b
      ensures StrLess(a, b) || StrLess(b, a)
    {
      StrLessTotal(a, b);
    }
  }

  // ---------------------------------------------------------------------------
  // sorted(col.unique())
  // ---------------------------------------------------------------------------

  /** Each element strictly precedes every later one. */
  ghost predicate Increasing<T>(s: seq<T>, less: (T, T) -> bool)
  {
    forall i, j :: 0 <= i < j < |s| ==> less(s[i], s[j])
  }

  ghost predicate Distinct<T>(s: seq<T>)
  {
    forall i, j :: 0 <= i < j < |s| ==> s[i] != s[j]
  }

  /** Inserts `x` into the increasing `s`, unless it is already there. */
  function InsertUnique<T(==,!new)>(x: T, s: seq<T>, less: (T, T) -> bool): (r: seq<T>)
    ensures forall v :: v in r <==> v == x || v in s
  {
    if s == [] then [x]
    else if x == s[0] then s
    else if less(x, s[0]) then [x] + s
    else [s[0]] + InsertUnique(x, s[1..], less)
  }

  /** `sorted(set(xs))`: the distinct values of `xs` in increasing order. */
  function SortedDistinct<T(==,!new)>(xs: seq<T>, less: (T, T) -> bool): (r: seq<T>)
    ensures forall v :: v in r <==> v in xs
  {
    if xs == [] then []
    else InsertUnique(xs[0], SortedDistinct(xs[1..], less), less)
  }

  lemma {:induction false} InsertUniqueIncreasing<T(!new)>(x: T, s: seq<T>, less: (T, T) -> bool)
    requires StrictTotalOrder(less) && Increasing(s, less)
    ensures Increasing(InsertUnique(x, s, less), less)
  {
    if s != [] && x != s[0] && !less(x, s[0]) {
      InsertUniqueIncreasing(x, s[1..], less);
      var t := InsertUnique(x, s[1..], less);
      assert less(s[0], x);
      forall v | v in t ensures less(s[0], v) {
        if v != x {
          var k :| 0 <= k < |s[1..]| && s[1..][k] == v;
          assert s[k + 1] == v;
        }
      }
    }
  }

  /** The option lists are strictly increasing, so free of duplicates. */
  lemma {:induction false} SortedDistinctIncreasing<T(!new)>(xs: seq<T>, less: (T, T) -> bool)
    requires StrictTotalOrder(less)
    ensures Increasing(SortedDistinct(xs, less), less)
    ensures Distinct(SortedDistinct(xs, less))
  {
    if xs != [] {
      SortedDistinctIncreasing(xs[1..], less);
      InsertUniqueIncreasing(xs[0], SortedDistinct(xs[1..], less), less);
    }
  }

  lemma HeadIsMember<T>(s: seq<T>)
    ensures s != [] ==> s[0] in s
  {
  }

  /**
   * An increasing list is determined by its elements: whatever sorting
   * algorithm Python runs on the distinct values, the outcome is this one.
   */
  lemma {:induction false} IncreasingUnique<T(!new)>(a: seq<T>, b: seq<T>, less: (T, T) -> bool)
    requires StrictTotalOrder(less) && Increasing(a, less) && Increasing(b, less)
    requires forall v :: v in a <==> v in b
    ensures a == b
  {
    if a != [] && b != [] {
      assert a[0] in b && b[0] in a;
      var m :| 0 <= m < |b| && b[m] == a[0];
      var k :| 0 <= k < |a| && a[k] == b[0];
      assert a[0] == b[0];
      forall v ensures v in a[1..] <==> v in b[1..] {
        if v in a[1..] {
          var k :| 0 <= k < |a[1..]| && a[1..][k] == v;
          assert less(a[0], v);
          assert v != b[0];
          assert v in b;
        }
        if v in b[1..] {
          var k :| 0 <= k < |b[1..]| && b[1..][k] == v;
          assert less(b[0], v);
          assert v != a[0];
          assert v in a;
        }
      }
      IncreasingUnique(a[1..], b[1..], less);
      assert a == [a[0]] + a[1..] && b == [b[0]] + b[1..];
    } else {
      HeadIsMember(a);
      HeadIsMember(b);
    }
  }

  // ---------------------------------------------------------------------------
  // sorted(xs, key=score, reverse=True)
  // ---------------------------------------------------------------------------

  /** `a` belongs before `b`: a higher score, or an equal score and `tieLess(a, b)`. */
  ghost predicate Before<T>(a: T, b: T, score: map<T, real>, tieLess: (T, T) -> bool)
    requires a in score && b in score
  {
    score[a] > score[b] || (score[a] == score[b] && tieLess(a, b))
  }

  /**
   * Ordered by descending score; equal scores in `tieLess` order. With
   * `tieLess` the order of the input, this is what a stable descending sort
   * produces.
   */
  ghost predicate RankedBy<T(!new)>(r: seq<T>, score: map<T, real>, tieLess: (T, T) -> bool)
    requires forall x :: x in r ==> x in score
  {
    forall i, j :: 0 <= i < j < |r| ==> Before(r[i], r[j], score, tieLess)
  }

  /** Places `x` before the first element whose score does not exceed its own. */
  function InsertByScore<T(!new)>(x: T, s: seq<T>, score: map<T, real>): (r: seq<T>)
    requires x in score && forall y :: y in s ==> y in score
    ensures multiset(r) == multiset(s) + multiset{x}
  {
    if s == [] || score[x] >= score[s[0]] then [x] + s
    else
      assert s == [s[0]] + s[1..];
      [s[0]] + InsertByScore(x, s[1..], score)
  }

  /** Stable sort of `xs` by descending score (insertion from the back). */
  function RankByScore<T(!new)>(xs: seq<T>, score: map<T, real>): (r: seq<T>)
    requires forall x :: x in xs ==> x in score
    ensures multiset(r) == multiset(xs)
  {
    if xs == [] then []
    else
      assert xs == [xs[0]] + xs[1..];
      var rest := RankByScore(xs[1..], score);
      assert forall y :: y in rest ==> y in multiset(xs[1..]);
      InsertByScore(xs[0], rest, score)
  }

  /** The ranking holds exactly the elements it was given. */
  lemma RankByScoreMembers<T(!new)>(xs: seq<T>, score: map<T, real>)
    requires forall x :: x in xs ==> x in score
    ensures forall y :: y in RankByScore(xs, score) <==> y in xs
  {
    var r := RankByScore(xs, score);
    assert forall y :: y in r <==> y in multiset(r);
    assert forall y :: y in xs <==> y in multiset(xs);
  }

  lemma RankedCons<T(!new)>(h: T, t: seq<T>, score: map<T, real>, tieLess: (T, T) -> bool)
    requires h in score && forall y :: y in t ==> y in score
    requires RankedBy(t, score, tieLess)
    requires forall y :: y in t ==> Before(h, y, score, tieLess)
    ensures RankedBy([h] + t, score, tieLess)
  {
    var r := [h] + t;
    forall i, j | 0 <= i < j < |r| ensures Before(r[i], r[j], score, tieLess) {
      assert r[j] == t[j - 1];
      if i > 0 {
        assert r[i] == t[i - 1];
      }
    }
  }

  lemma {:induction false} InsertByScoreRanked<T(!new)>(x: T, s: seq<T>, score: map<T, real>, tieLess: (T, T) -> bool)
    requires x in score && forall y :: y in s ==> y in score
    requires RankedBy(s, score, tieLess)
    requires forall y :: y in s ==> tieLess(x, y)
    ensures forall y :: y in InsertByScore(x, s, score) ==> y in score
    ensures RankedBy(InsertByScore(x, s, score), score, tieLess)
  {
    var r := InsertByScore(x, s, score);
    assert forall y :: y in r ==> y in multiset(s) + multiset{x};
    if s == [] || score[x] >= score[s[0]] {
      forall y | y in s ensures Before(x, y, score, tieLess) {
        var k :| 0 <= k < |s| && s[k] == y;
        if k > 0 {
          assert Before(s[0], s[k], score, tieLess);
        }
      }
      RankedCons(x, s, score, tieLess);
    } else {
      var t := InsertByScore(x, s[1..], score);
      InsertByScoreRanked(x, s[1..], score, tieLess);
      assert RankedBy(s[1..], score, tieLess) by {
        forall i, j | 0 <= i < j < |s[1..]| ensures Before(s[1..][i], s[1..][j], score, tieLess) {
          assert s[1..][i] == s[i + 1] && s[1..][j] == s[j + 1];
        }
      }
      forall y | y in t ensures Before(s[0], y, score, tieLess) {
        assert y in multiset(s[1..]) + multiset{x};
        if y != x {
          var k :| 0 <= k < |s[1..]| && s[1..][k] == y;
          assert s[k + 1] == y;
        }
      }
      RankedCons(s[0], t, score, tieLess);
    }
  }

  /**
   * The ranking lists the scores in non-increasing order, and elements with
   * equal scores keep their order in the input.
   */
  lemma {:induction false} RankByScoreRanked<T(!new)>(xs: seq<T>, score: map<T, real>, tieLess: (T, T) -> bool)
    requires forall x :: x in xs ==> x in score
    requires Increasing(xs, tieLess)
    ensures forall y :: y in RankByScore(xs, score) ==> y in score
    ensures RankedBy(RankByScore(xs, score), score, tieLess)
  {
    var r := RankByScore(xs, score);
    assert forall y :: y in r ==> y in multiset(xs);
    if xs != [] {
      var rest := RankByScore(xs[1..], score);
      RankByScoreRanked(xs[1..], score, tieLess);
      forall y | y in rest ensures tieLess(xs[0], y) {
        assert y in multiset(xs[1..]);
        var k :| 0 <= k < |xs[1..]| && xs[1..][k] == y;
        assert xs[k + 1] == y;
      }
      InsertByScoreRanked(xs[0], rest, score, tieLess);
    }
  }
}
