/**
 * `scored.sort(key=lambda x: (x[2], x[3]), reverse=True)` and `scored[:k]`
 * of `top_k_runs`: a stable sort by weighted rate, then sample count, both
 * descending, followed by Python's slice.
 */
module Ranking {
  import opened Runs

  /** `a` comes no later than `b` in a descending sort on `(wp, total)`. */
  predicate RanksAtLeast(a: Interval, b: Interval) {
    a.wp > b.wp || (a.wp == b.wp && a.total >= b.total)
  }

  /** Equal sort keys. */
  predicate SameRank(a: Interval, b: Interval) {
    a.wp == b.wp && a.total == b.total
  }

  predicate SortedByRank(s: seq<Interval>) {
    forall i, j | 0 <= i < j < |s| :: RanksAtLeast(s[i], s[j])
  }

  /** The elements sharing `q`'s sort key, in their order in `s`. */
  function RankFilter(s: seq<Interval>, q: Interval): seq<Interval> {
    if s == [] then []
    else (if SameRank(s[0], q) then [s[0]] else []) + RankFilter(s[1..], q)
  }

  lemma {:induction false} RankFilterAppend(a: seq<Interval>, b: seq<Interval>, q: Interval)
    ensures RankFilter(a + b, q) == RankFilter(a, q) + RankFilter(b, q)
  {
    if a == [] {
      assert a + b == b;
    } else {
      assert (a + b)[1..] == a[1..] + b;
      RankFilterAppend(a[1..], b, q);
    }
  }

  lemma {:induction false} RankFilterNone(s: seq<Interval>, q: Interval)
    requires forall i | 0 <= i < |s| :: !SameRank(s[i], q)
    ensures RankFilter(s, q) == []
  {
    if s != [] {
      RankFilterNone(s[1..], q);
    }
  }

  /** Places `x` after every element whose key is at least its own. */
  function Insert(x: Interval, s: seq<Interval>): (r: seq<Interval>)
    ensures |r| == |s| + 1
    ensures multiset(r) == multiset(s) + multiset{x}
  {
    if s == [] then [x]
    else if RanksAtLeast(s[0], x) then
      assert s == [s[0]] + s[1..];
      [s[0]] + Insert(x, s[1..])
    else
      assert s == [s[0]] + s[1..];
      [x] + s
  }

  /** An upper bound on `x` and on every element of `s` bounds the insertion too. */
  lemma {:induction false} InsertBounded(y: Interval, x: Interval, s: seq<Interval>)
    requires RanksAtLeast(y, x)
    requires forall i | 0 <= i < |s| :: RanksAtLeast(y, s[i])
    ensures forall i | 0 <= i < |Insert(x, s)| :: RanksAtLeast(y, Insert(x, s)[i])
  {
    if s != [] && RanksAtLeast(s[0], x) {
      InsertBounded(y, x, s[1..]);
      assert forall i | 0 < i < |Insert(x, s)| :: Insert(x, s)[i] == Insert(x, s[1..])[i - 1];
    }
  }

  lemma {:induction false} InsertSorted(x: Interval, s: seq<Interval>)
    requires SortedByRank(s)
    ensures SortedByRank(Insert(x, s))
  {
    if s != [] {
      var r := Insert(x, s);
      if RanksAtLeast(s[0], x) {
        InsertSorted(x, s[1..]);
        InsertBounded(s[0], x, s[1..]);
        assert forall i | 0 < i < |r| :: r[i] == Insert(x, s[1..])[i - 1];
      } else {
        assert forall i | 0 < i < |r| :: r[i] == s[i - 1];
      }
    }
  }

  /** Inserting a later element keeps the order among equal keys. */
  lemma {:induction false} InsertStable(x: Interval, s: seq<Interval>, q: Interval)
    requires SortedByRank(s)
    ensures RankFilter(Insert(x, s), q) == RankFilter(s, q) + (if SameRank(x, q) then [x] else [])
  {
    if s == [] {
    } else if RanksAtLeast(s[0], x) {
      InsertStable(x, s[1..], q);
      var r := Insert(x, s);
      assert r == [s[0]] + Insert(x, s[1..]);
      assert r[1..] == Insert(x, s[1..]);
    } else {
      var r := [x] + s;
      assert r[1..] == s;
      if SameRank(x, q) {
        RankFilterNone(s, q);
      }
    }
  }

  /** Inserting the last element into a stable sort of the others keeps every group of ties in input order. */
  lemma InsertKeepsTies(x: Interval, sorted: seq<Interval>, prefix: seq<Interval>)
    requires SortedByRank(sorted)
    requires forall q :: RankFilter(sorted, q) == RankFilter(prefix, q)
    ensures forall q :: RankFilter(Insert(x, sorted), q) == RankFilter(prefix + [x], q)
  {
    forall q
      ensures RankFilter(Insert(x, sorted), q) == RankFilter(prefix + [x], q)
    {
      InsertStable(x, sorted, q);
      RankFilterAppend(prefix, [x], q);
      assert RankFilter([x], q) == if SameRank(x, q) then [x] else [];
    }
  }

  /**
   * A stable descending sort: a permutation of `s`, ordered by key, in which
   * elements with equal keys keep their order in `s`.
   */
  function SortByRank(s: seq<Interval>): (r: seq<Interval>)
    ensures multiset(r) == multiset(s)
    ensures SortedByRank(r)
    ensures forall q :: RankFilter(r, q) == RankFilter(s, q)
  {
    if s == [] then []
    else
      var prefix := s[..|s| - 1];
      var x := s[|s| - 1];
      var sorted := SortByRank(prefix);
      assert s == prefix + [x];
      assert multiset(s) == multiset(prefix) + multiset{x};
      InsertSorted(x, sorted);
      InsertKeepsTies(x, sorted, prefix);
      Insert(x, sorted)
  }

  /** Python's `s[:k]`, including a negative `k`, which drops the last `-k` elements. */
  function Take<T>(s: seq<T>, k: int): (r: seq<T>)
    ensures k >= 0 ==> |r| == if k < |s| then k else |s|
    ensures k < 0 ==> |r| == if |s| + k > 0 then |s| + k else 0
    ensures r == s[..|r|]
  {
    if k >= 0 then (if k < |s| then s[..k] else s)
    else if |s| + k > 0 then s[..|s| + k]
    else []
  }

  /** `x` ranks no higher than any member of `s`. */
  predicate Outranked(x: Interval, s: seq<Interval>) {
    forall k | 0 <= k < |s| :: RanksAtLeast(s[k], x)
  }

  /** Cutting a ranked list keeps the best: whatever is cut is outranked by all that is kept. */
  lemma TakeKeepsBest(ranked: seq<Interval>, k: int)
    requires SortedByRank(ranked)
    ensures forall p | 0 <= p < |ranked| :: ranked[p] in Take(ranked, k) || Outranked(ranked[p], Take(ranked, k))
  {
    var top := Take(ranked, k);
    forall p | 0 <= p < |ranked|
      ensures ranked[p] in top || Outranked(ranked[p], top)
    {
      if p < |top| {
        assert top[p] == ranked[p];
      } else {
        assert forall q | 0 <= q < |top| :: top[q] == ranked[q];
      }
    }
  }

  /** The top `k` of a ranking are drawn from what was ranked. */
  lemma TopOfRankingFrom(s: seq<Interval>, k: int)
    ensures forall i | 0 <= i < |Take(SortByRank(s), k)| :: Take(SortByRank(s), k)[i] in s
  {
    var ranked := SortByRank(s);
    var top := Take(ranked, k);
    forall i | 0 <= i < |top|
      ensures top[i] in s
    {
      assert top[i] == ranked[i];
      assert ranked[i] in multiset(ranked);
    }
  }

  /**
   * The top `k` of a ranking repeat nothing that was not ranked that often,
   * and hold as many elements as Python's slice keeps.
   */
  lemma TopOfRankingCount(s: seq<Interval>, k: int)
    ensures multiset(Take(SortByRank(s), k)) <= multiset(s)
    ensures k >= 0 ==> |Take(SortByRank(s), k)| == if k < |s| then k else |s|
  {
    var ranked := SortByRank(s);
    var top := Take(ranked, k);
    assert ranked == top + ranked[|top|..];
    assert |ranked| == |s| by {
      assert |multiset(ranked)| == |multiset(s)|;
    }
  }
}
