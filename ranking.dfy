/**
 * Scored items and Python's stable sort in descending order of score, as used by
 * `list.sort(key=..., reverse=True)` and by `Counter.most_common()`.
 * Python's sort with `reverse=True` is stable: items with equal keys keep the
 * order they had in the input. The sort is modelled as a pure function on values.
 */
module Ranking {
  import opened Slices

  /** An item together with its score (`relevance_score`, `match_score` or a count). */
  datatype Ranked<T> = Ranked(item: T, score: real)

  /** Scores never increase from left to right. */
  ghost predicate SortedDesc<T>(xs: seq<Ranked<T>>) {
    forall i, j :: 0 <= i < j < |xs| ==> xs[i].score >= xs[j].score
  }

  /** The items that carry score `k`, in the order they occur in `xs`. */
  function WithScore<T>(xs: seq<Ranked<T>>, k: real): (r: seq<Ranked<T>>)
    ensures forall i :: 0 <= i < |r| ==> r[i] in xs && r[i].score == k
    ensures forall i :: 0 <= i < |xs| && xs[i].score == k ==> xs[i] in r
  {
    if xs == [] then []
    else (if xs[0].score == k then [xs[0]] else []) + WithScore(xs[1..], k)
  }

  /** Items with equal scores are ordered by `g` (a secondary key such as a first-occurrence index). */
  ghost predicate TiesOrderedBy<T>(xs: seq<Ranked<T>>, g: T -> int) {
    forall i, j :: 0 <= i < j < |xs| && xs[i].score == xs[j].score ==> g(xs[i].item) < g(xs[j].item)
  }

  /** Inserts `x`, which came earlier in the input than every item of `ys`, before the first item whose score is not larger. */
  function Insert<T>(x: Ranked<T>, ys: seq<Ranked<T>>): (r: seq<Ranked<T>>)
    ensures multiset(r) == multiset(ys) + multiset{x}
    ensures |r| == |ys| + 1
  {
    if ys == [] || ys[0].score <= x.score then [x] + ys
    else assert ys == [ys[0]] + ys[1..]; [ys[0]] + Insert(x, ys[1..])
  }

  /** Stable sort, highest score first. */
  function SortDesc<T>(xs: seq<Ranked<T>>): (r: seq<Ranked<T>>)
    ensures multiset(r) == multiset(xs)
    ensures |r| == |xs|
  {
    if xs == [] then [] else assert xs == [xs[0]] + xs[1..]; Insert(xs[0], SortDesc(xs[1..]))
  }

  lemma SortedTail<T>(ys: seq<Ranked<T>>)
    requires ys != [] && SortedDesc(ys)
    ensures SortedDesc(ys[1..])
  {
    var tail := ys[1..];
    forall i, j | 0 <= i < j < |tail| ensures tail[i].score >= tail[j].score {
      assert tail[i] == ys[i + 1] && tail[j] == ys[j + 1];
    }
  }

  /** Every item of a sorted list scores at most as much as its head. */
  lemma SortedHeadIsMax<T>(ys: seq<Ranked<T>>, e: Ranked<T>)
    requires ys != [] && SortedDesc(ys) && e in ys
    ensures e.score <= ys[0].score
  {
    var m :| 0 <= m < |ys| && ys[m] == e;
    if m > 0 {
      assert ys[0].score >= ys[m].score;
    }
  }

  /** Putting an item in front of a sorted list whose scores do not exceed its own keeps it sorted. */
  lemma ConsSorted<T>(x: Ranked<T>, ys: seq<Ranked<T>>)
    requires SortedDesc(ys)
    requires forall y :: y in ys ==> y.score <= x.score
    ensures SortedDesc([x] + ys)
  {
    var r := [x] + ys;
    forall i, j | 0 <= i < j < |r| ensures r[i].score >= r[j].score {
      assert r[j] == ys[j - 1];
      if i > 0 {
        assert r[i] == ys[i - 1];
      }
    }
  }

  lemma {:induction false} InsertSorted<T>(x: Ranked<T>, ys: seq<Ranked<T>>)
    requires SortedDesc(ys)
    ensures SortedDesc(Insert(x, ys))
  {
    if ys == [] || ys[0].score <= x.score {
      forall y | y in ys ensures y.score <= x.score {
        SortedHeadIsMax(ys, y);
      }
      ConsSorted(x, ys);
    } else {
      var tail := ys[1..];
      SortedTail(ys);
      InsertSorted(x, tail);
      var rest := Insert(x, tail);
      forall e | e in rest ensures e.score <= ys[0].score {
        assert e in multiset(rest);
        if e != x {
          assert e in multiset(tail);
          assert e in ys;
          SortedHeadIsMax(ys, e);
        }
      }
      ConsSorted(ys[0], rest);
    }
  }

  /** Sorting loses no item. */
  lemma InSortDesc<T>(xs: seq<Ranked<T>>, x: Ranked<T>)
    requires x in xs
    ensures x in SortDesc(xs)
  {
    assert x in multiset(xs);
    assert x in multiset(SortDesc(xs));
  }

  /** The result is ordered by non-increasing score. */
  lemma {:induction false} SortDescSorted<T>(xs: seq<Ranked<T>>)
    ensures SortedDesc(SortDesc(xs))
  {
    if xs != [] {
      SortDescSorted(xs[1..]);
      InsertSorted(xs[0], SortDesc(xs[1..]));
    }
  }

  lemma WithScoreCons<T>(x: Ranked<T>, ys: seq<Ranked<T>>, k: real)
    ensures WithScore([x] + ys, k) == (if x.score == k then [x] else []) + WithScore(ys, k)
  {
    assert ([x] + ys)[1..] == ys;
  }

  /** Two sequences of which one is empty can be swapped in front of a third. */
  lemma SwapEmpty<T>(a: seq<T>, b: seq<T>, w: seq<T>)
    requires a == [] || b == []
    ensures a + (b + w) == b + (a + w)
  {
  }

  lemma {:induction false} InsertWithScore<T>(x: Ranked<T>, ys: seq<Ranked<T>>, k: real)
    ensures WithScore(Insert(x, ys), k) == (if x.score == k then [x] else []) + WithScore(ys, k)
  {
    if ys == [] || ys[0].score <= x.score {
      WithScoreCons(x, ys, k);
    } else {
      var y, tail := ys[0], ys[1..];
      assert ys == [y] + tail;
      InsertWithScore(x, tail, k);
      WithScoreCons(y, Insert(x, tail), k);
      WithScoreCons(y, tail, k);
      SwapEmpty(if y.score == k then [y] else [], if x.score == k then [x] else [], WithScore(tail, k));
    }
  }

  /** Stability: for every score, the items carrying it appear in input order. */
  lemma {:induction false} SortDescStable<T>(xs: seq<Ranked<T>>, k: real)
    ensures WithScore(SortDesc(xs), k) == WithScore(xs, k)
  {
    if xs != [] {
      SortDescStable(xs[1..], k);
      InsertWithScore(xs[0], SortDesc(xs[1..]), k);
    }
  }

  lemma TiesTail<T>(ys: seq<Ranked<T>>, g: T -> int)
    requires ys != [] && TiesOrderedBy(ys, g)
    ensures TiesOrderedBy(ys[1..], g)
  {
    var tail := ys[1..];
    forall i, j | 0 <= i < j < |tail| && tail[i].score == tail[j].score ensures g(tail[i].item) < g(tail[j].item) {
      assert tail[i] == ys[i + 1] && tail[j] == ys[j + 1];
    }
  }

  lemma TiesHeadFirst<T>(ys: seq<Ranked<T>>, g: T -> int, e: Ranked<T>)
    requires ys != [] && TiesOrderedBy(ys, g)
    requires e in ys[1..] && e.score == ys[0].score
    ensures g(ys[0].item) < g(e.item)
  {
    var m :| 0 <= m < |ys[1..]| && ys[1..][m] == e;
    assert ys[m + 1] == e;
  }

  /** An item put in front keeps ties ordered when it precedes, in `g`, each later item of equal score. */
  lemma ConsTiesOrdered<T>(x: Ranked<T>, ys: seq<Ranked<T>>, g: T -> int)
    requires TiesOrderedBy(ys, g)
    requires forall y :: y in ys && y.score == x.score ==> g(x.item) < g(y.item)
    ensures TiesOrderedBy([x] + ys, g)
  {
    var r := [x] + ys;
    forall i, j | 0 <= i < j < |r| && r[i].score == r[j].score ensures g(r[i].item) < g(r[j].item) {
      assert r[j] == ys[j - 1];
      if i > 0 {
        assert r[i] == ys[i - 1];
      }
    }
  }

  lemma {:induction false} InsertTiesOrdered<T>(x: Ranked<T>, ys: seq<Ranked<T>>, g: T -> int)
    requires TiesOrderedBy(ys, g)
    requires forall y :: y in ys ==> g(x.item) < g(y.item)
    ensures TiesOrderedBy(Insert(x, ys), g)
  {
    if ys == [] || ys[0].score <= x.score {
      ConsTiesOrdered(x, ys, g);
    } else {
      var rest := Insert(x, ys[1..]);
      TiesTail(ys, g);
      InsertTiesOrdered(x, ys[1..], g);
      forall e | e in rest && e.score == ys[0].score ensures g(ys[0].item) < g(e.item) {
        assert e in multiset(rest);
        assert e != x;
        assert e in multiset(ys[1..]);
        TiesHeadFirst(ys, g, e);
      }
      ConsTiesOrdered(ys[0], rest, g);
    }
  }

  /** When the input is strictly increasing in `g`, items with equal scores come out in `g` order. */
  lemma {:induction false} SortDescTiesOrdered<T>(xs: seq<Ranked<T>>, g: T -> int)
    requires forall i, j :: 0 <= i < j < |xs| ==> g(xs[i].item) < g(xs[j].item)
    ensures TiesOrderedBy(SortDesc(xs), g)
  {
    if xs != [] {
      SortDescTiesOrdered(xs[1..], g);
      forall y | y in SortDesc(xs[1..]) ensures g(xs[0].item) < g(y.item) {
        assert y in multiset(SortDesc(xs[1..]));
        var m :| 0 <= m < |xs[1..]| && xs[1..][m] == y;
        assert xs[m + 1] == y;
      }
      InsertTiesOrdered(xs[0], SortDesc(xs[1..]), g);
    }
  }

  /** Sorting a list whose items all carry the same score leaves it unchanged. */
  lemma SortDescEqualScores<T>(xs: seq<Ranked<T>>, k: real)
    requires forall x :: x in xs ==> x.score == k
    ensures SortDesc(xs) == xs
  {
    SortDescStable(xs, k);
    WithScoreAll(xs, k);
    WithScoreAll(SortDesc(xs), k);
  }

  lemma {:induction false} WithScoreAll<T>(xs: seq<Ranked<T>>, k: real)
    requires forall x :: x in xs ==> x.score == k
    ensures WithScore(xs, k) == xs
  {
    if xs != [] {
      WithScoreAll(xs[1..], k);
    }
  }

  /** The items whose score is at least `t`, in order (the similarity-threshold filter). */
  function AtLeast<T>(xs: seq<Ranked<T>>, t: real): (r: seq<Ranked<T>>)
    ensures forall i :: 0 <= i < |r| ==> r[i] in xs && r[i].score >= t
    ensures forall i :: 0 <= i < |xs| && xs[i].score >= t ==> xs[i] in r
    ensures |r| <= |xs|
  {
    if xs == [] then []
    else (if xs[0].score >= t then [xs[0]] else []) + AtLeast(xs[1..], t)
  }

  lemma {:induction false} AtLeastSorted<T>(xs: seq<Ranked<T>>, t: real)
    requires SortedDesc(xs)
    ensures SortedDesc(AtLeast(xs, t))
  {
    if xs != [] {
      SortedTail(xs);
      AtLeastSorted(xs[1..], t);
      var rest := AtLeast(xs[1..], t);
      if xs[0].score >= t {
        forall y | y in rest ensures y.score <= xs[0].score {
          assert y in xs[1..];
          SortedHeadIsMax(xs, y);
        }
        ConsSorted(xs[0], rest);
        assert AtLeast(xs, t) == [xs[0]] + rest;
      } else {
        assert AtLeast(xs, t) == rest;
      }
    }
  }

  lemma {:induction false} WithScoreAppend<T>(a: seq<Ranked<T>>, b: seq<Ranked<T>>, k: real)
    ensures WithScore(a + b, k) == WithScore(a, k) + WithScore(b, k)
  {
    if a != [] {
      assert (a + b)[1..] == a[1..] + b;
      WithScoreAppend(a[1..], b, k);
    } else {
      assert a + b == b;
    }
  }

  /** Filtering by a threshold removes whole score classes and keeps the others intact. */
  lemma {:induction false} AtLeastWithScore<T>(xs: seq<Ranked<T>>, t: real, k: real)
    ensures WithScore(AtLeast(xs, t), k) == if k >= t then WithScore(xs, k) else []
  {
    if xs != [] {
      AtLeastWithScore(xs[1..], t, k);
      var head := if xs[0].score >= t then [xs[0]] else [];
      WithScoreAppend(head, AtLeast(xs[1..], t), k);
      assert WithScore(head, k) == if k >= t && xs[0].score == k then [xs[0]] else [];
    }
  }

  /** Putting the same sequence in front of a prefix and its extension keeps the prefix relation. */
  lemma PrefixExtend<T>(a: seq<T>, b: seq<T>, c: seq<T>)
    requires b <= c
    ensures a + b <= a + c
  {
    assert forall i :: 0 <= i < |a + b| ==> (a + b)[i] == (a + c)[i];
  }

  /** Truncation keeps, for every score, a prefix of the items carrying it. */
  lemma {:induction false} PrefixWithScore<T>(xs: seq<Ranked<T>>, m: nat, k: real)
    requires m <= |xs|
    ensures WithScore(xs[..m], k) <= WithScore(xs, k)
  {
    if m > 0 {
      var h, tail := xs[0], xs[1..];
      assert xs[..m] == [h] + tail[..m - 1];
      assert xs == [h] + tail;
      WithScoreCons(h, tail[..m - 1], k);
      WithScoreCons(h, tail, k);
      PrefixWithScore(tail, m - 1, k);
      PrefixExtend(if h.score == k then [h] else [], WithScore(tail[..m - 1], k), WithScore(tail, k));
    }
  }

  /**
   * Truncating a sorted list to `n` keeps the best items: every item of the untruncated
   * list is kept, or the truncated list is full and all its scores are at least as high.
   */
  lemma TruncateKeepsBest<T>(ys: seq<Ranked<T>>, n: nat)
    requires SortedDesc(ys)
    ensures forall x :: x in ys ==>
              x in Prefix(ys, n) ||
              (|Prefix(ys, n)| == n && forall y :: y in Prefix(ys, n) ==> y.score >= x.score)
  {
    var r := Prefix(ys, n);
    forall x | x in ys
      ensures x in r || (|r| == n && forall y :: y in r ==> y.score >= x.score)
    {
      var j :| 0 <= j < |ys| && ys[j] == x;
      if j < |r| {
        assert r[j] == x;
      } else {
        forall y | y in r ensures y.score >= x.score {
          var i :| 0 <= i < |r| && r[i] == y;
          assert ys[i] == y;
        }
      }
    }
  }
}
