/**
 * The run machinery shared by `merge_and_score` and `top_k_runs` in
 * `recommend_week.py`: sorting bin keys, cutting them into maximal runs of
 * bins one step apart, and scoring a run by its sample-weighted probability.
 */
module Runs {
  import opened Clock
  import opened Samples
  import opened Aggregation

  /** `to_min`: minutes after midnight of a bin start. */
  function ToMin(s: Slot): int {
    s.hour * 60 + s.minute
  }

  /** Comparing `to_min` is comparing the `(hour, minute)` tuples, as `sorted` does. */
  lemma ToMinOrdersLikeTuples(a: Slot, b: Slot)
    ensures ToMin(a) < ToMin(b) <==> a.hour < b.hour || (a.hour == b.hour && a.minute < b.minute)
    ensures ToMin(a) == ToMin(b) <==> a == b
  {
  }

  function Last<T>(s: seq<T>): T
    requires s != []
  {
    s[|s| - 1]
  }

  predicate Ascending(keys: seq<Slot>) {
    forall i, j | 0 <= i < j < |keys| :: ToMin(keys[i]) < ToMin(keys[j])
  }

  /** `m` is the earliest bin of `s`. */
  predicate IsEarliest(m: Slot, s: set<Slot>) {
    m in s && forall x | x in s :: ToMin(m) <= ToMin(x)
  }

  lemma {:induction false} MinSlotExists(s: set<Slot>)
    requires s != {}
    ensures exists m :: IsEarliest(m, s)
  {
    var y :| y in s;
    if s == {y} {
      assert IsEarliest(y, s);
    } else {
      var rest := s - {y};
      MinSlotExists(rest);
      var m :| IsEarliest(m, rest);
      if ToMin(y) < ToMin(m) {
        assert IsEarliest(y, s);
      } else {
        assert IsEarliest(m, s);
      }
    }
  }

  /** The earliest bin of a non-empty set. */
  function MinSlot(s: set<Slot>): (m: Slot)
    requires s != {}
    ensures m in s && forall x | x in s :: ToMin(m) <= ToMin(x)
  {
    MinSlotExists(s);
    var m :| IsEarliest(m, s);
    m
  }

  /** `sorted(keys)`: the set's bins, each once, earliest first. */
  function SortedSlots(s: set<Slot>): (keys: seq<Slot>)
    ensures |keys| == |s|
    ensures forall x :: x in keys <==> x in s
    ensures Ascending(keys)
    decreases |s|
  {
    if s == {} then []
    else
      var m := MinSlot(s);
      var rest := SortedSlots(s - {m});
      assert forall j | 0 <= j < |rest| :: ToMin(m) < ToMin(rest[j]) by {
        forall j | 0 <= j < |rest|
          ensures ToMin(m) < ToMin(rest[j])
        {
          assert rest[j] in s - {m};
          ToMinOrdersLikeTuples(m, rest[j]);
        }
      }
      var keys := [m] + rest;
      assert forall i | 0 < i < |keys| :: keys[i] == rest[i - 1];
      keys
  }

  /** Consecutive bins of the run start exactly `step` minutes apart. */
  predicate Chained(run: seq<Slot>, step: int) {
    forall i | 0 < i < |run| :: ToMin(run[i]) - ToMin(run[i - 1]) == step
  }

  function Flatten<T>(xss: seq<seq<T>>): seq<T> {
    if xss == [] then [] else Flatten(xss[..|xss| - 1]) + Last(xss)
  }

  lemma FlattenSnoc<T>(xss: seq<seq<T>>, xs: seq<T>)
    ensures Flatten(xss + [xs]) == Flatten(xss) + xs
  {
    assert (xss + [xs])[..|xss|] == xss;
  }

  /** Adjacent runs do not chain: each run is as long as it can be. */
  predicate Separated(runs: seq<seq<Slot>>, step: int)
    requires forall i | 0 <= i < |runs| :: runs[i] != []
  {
    forall i | 0 < i < |runs| :: ToMin(runs[i][0]) - ToMin(Last(runs[i - 1])) != step
  }

  predicate WellSplit(keys: seq<Slot>, runs: seq<seq<Slot>>, step: int) {
    && Flatten(runs) == keys
    && (forall i | 0 <= i < |runs| :: runs[i] != [] && Chained(runs[i], step))
    && Separated(runs, step)
  }

  lemma ExtendLastRun(keys: seq<Slot>, prev: seq<seq<Slot>>, cur: Slot, step: int)
    requires prev != [] && WellSplit(keys, prev, step)
    requires ToMin(cur) - ToMin(Last(Last(prev))) == step
    ensures WellSplit(keys + [cur], prev[..|prev| - 1] + [Last(prev) + [cur]], step)
  {
    var front := prev[..|prev| - 1];
    var run := Last(prev) + [cur];
    var runs := front + [run];
    assert prev == front + [Last(prev)];
    FlattenSnoc(front, Last(prev));
    FlattenSnoc(front, run);
    assert Chained(run, step) by {
      forall i | 0 < i < |run|
        ensures ToMin(run[i]) - ToMin(run[i - 1]) == step
      {
        if i < |run| - 1 {
          assert run[i] == Last(prev)[i] && run[i - 1] == Last(prev)[i - 1];
        }
      }
    }
    assert forall i | 0 <= i < |front| :: runs[i] == prev[i];
  }

  lemma StartNewRun(keys: seq<Slot>, prev: seq<seq<Slot>>, cur: Slot, step: int)
    requires WellSplit(keys, prev, step)
    requires prev != [] ==> ToMin(cur) - ToMin(Last(Last(prev))) != step
    ensures WellSplit(keys + [cur], prev + [[cur]], step)
  {
    FlattenSnoc(prev, [cur]);
    var runs := prev + [[cur]];
    assert forall i | 0 <= i < |prev| :: runs[i] == prev[i];
  }

  /**
   * The `runs` loop: cuts the keys, in order, into non-empty runs whose
   * neighbours are `step` apart, starting a new run at every other gap.
   */
  function SplitRuns(keys: seq<Slot>, step: int): (runs: seq<seq<Slot>>)
    ensures runs == [] <==> keys == []
    ensures WellSplit(keys, runs, step)
  {
    if keys == [] then []
    else
      var front := keys[..|keys| - 1];
      var cur := keys[|keys| - 1];
      var prev := SplitRuns(front, step);
      assert keys == front + [cur];
      if prev != [] && ToMin(cur) - ToMin(Last(Last(prev))) == step then
        ExtendLastRun(front, prev, cur, step);
        prev[..|prev| - 1] + [Last(prev) + [cur]]
      else
        StartNewRun(front, prev, cur, step);
        prev + [[cur]]
  }

  /** Success rate of a bin with at least one sample: `ok / n`. */
  function Prob(c: Cell): (p: real)
    requires c.n > 0
    ensures c.ok <= c.n ==> 0.0 <= p <= 1.0
  {
    c.ok as real / c.n as real
  }

  /** The `probs` dict: every bin with at least one sample. */
  predicate Sampled(probs: map<Slot, Cell>) {
    forall s | s in probs :: probs[s].n > 0
  }

  predicate Within(run: seq<Slot>, probs: map<Slot, Cell>) {
    forall i | 0 <= i < |run| :: run[i] in probs
  }

  /** `sum(probs[k][1] for k in r)`: the samples behind a run. */
  function SumN(run: seq<Slot>, probs: map<Slot, Cell>): nat
    requires Within(run, probs)
  {
    if run == [] then 0 else probs[run[0]].n + SumN(run[1..], probs)
  }

  /** The successes behind a run. */
  function SumOk(run: seq<Slot>, probs: map<Slot, Cell>): nat
    requires Within(run, probs)
  {
    if run == [] then 0 else probs[run[0]].ok + SumOk(run[1..], probs)
  }

  /** `sum(probs[k][0] * probs[k][1] for k in r)`: each bin's rate weighted by its samples. */
  function SumPN(run: seq<Slot>, probs: map<Slot, Cell>): real
    requires Within(run, probs) && Sampled(probs)
  {
    if run == [] then 0.0 else Prob(probs[run[0]]) * probs[run[0]].n as real + SumPN(run[1..], probs)
  }

  /** A reported interval: first and last bin start, weighted rate and sample count. */
  datatype Interval = Interval(start: Slot, end: Slot, wp: real, total: nat)

  /** The tuple `(start, end, weighted_p, total_n)` built for a kept run. */
  function ScoreRun(run: seq<Slot>, probs: map<Slot, Cell>): (iv: Interval)
    requires run != [] && Within(run, probs) && Sampled(probs) && SumN(run, probs) > 0
    ensures iv.start == run[0] && iv.end == Last(run)
    ensures iv.total == SumN(run, probs)
  {
    Interval(run[0], Last(run), SumPN(run, probs) / SumN(run, probs) as real, SumN(run, probs))
  }

  /** The weighted sum of rates is exactly the pooled number of successes. */
  lemma {:induction false} WeightedIsPooled(run: seq<Slot>, probs: map<Slot, Cell>)
    requires Within(run, probs) && Sampled(probs)
    ensures SumPN(run, probs) == SumOk(run, probs) as real
  {
    if run != [] {
      var c := probs[run[0]];
      assert Prob(c) * c.n as real == c.ok as real;
      WeightedIsPooled(run[1..], probs);
    }
  }

  lemma Mediant(a: real, b: real, c: real, d: real)
    requires b > 0.0 && d > 0.0
    ensures a / b <= c / d ==> a / b <= (a + c) / (b + d) <= c / d
    ensures c / d <= a / b ==> c / d <= (a + c) / (b + d) <= a / b
  {
    var x := a / b;
    var y := c / d;
    assert a == x * b;
    assert c == y * d;
    if x <= y {
      assert (y - x) * d >= 0.0;
      assert (y - x) * b >= 0.0;
      assert a + c >= x * (b + d);
      assert a + c <= y * (b + d);
    } else {
      assert (x - y) * d >= 0.0;
      assert (x - y) * b >= 0.0;
      assert a + c <= x * (b + d);
      assert a + c >= y * (b + d);
    }
  }

  /** The pooled rate of a run lies between the rates of two of its bins. */
  lemma {:induction false} PooledWithinMembers(run: seq<Slot>, probs: map<Slot, Cell>)
    requires run != [] && Within(run, probs) && Sampled(probs)
    ensures SumN(run, probs) > 0
    ensures exists i | 0 <= i < |run| :: Prob(probs[run[i]]) <= SumOk(run, probs) as real / SumN(run, probs) as real
    ensures exists j | 0 <= j < |run| :: SumOk(run, probs) as real / SumN(run, probs) as real <= Prob(probs[run[j]])
  {
    var c := probs[run[0]];
    if |run| == 1 {
      assert run[1..] == [];
      assert SumN(run[1..], probs) == 0 && SumOk(run[1..], probs) == 0;
      assert SumN(run, probs) == c.n;
      assert SumOk(run, probs) == c.ok;
    } else {
      var rest := run[1..];
      PooledWithinMembers(rest, probs);
      var a, b := c.ok as real, c.n as real;
      var oc, dn := SumOk(rest, probs) as real, SumN(rest, probs) as real;
      Mediant(a, b, oc, dn);
      var i :| 0 <= i < |rest| && Prob(probs[rest[i]]) <= oc / dn;
      var j :| 0 <= j < |rest| && oc / dn <= Prob(probs[rest[j]]);
      assert SumOk(run, probs) as real == a + oc && SumN(run, probs) as real == b + dn;
      assert rest[i] == run[i + 1] && rest[j] == run[j + 1];
      if a / b <= oc / dn {
        assert Prob(probs[run[0]]) <= (a + oc) / (b + dn) <= Prob(probs[run[j + 1]]);
      } else {
        assert Prob(probs[run[i + 1]]) <= (a + oc) / (b + dn) <= Prob(probs[run[0]]);
      }
    }
  }

  /**
   * `weighted_p` equals successes over samples and lies between the lowest
   * and the highest rate of the run's bins.
   */
  lemma WeightedWithinMembers(run: seq<Slot>, probs: map<Slot, Cell>)
    requires run != [] && Within(run, probs) && Sampled(probs)
    ensures SumN(run, probs) > 0
    ensures ScoreRun(run, probs).wp == SumOk(run, probs) as real / SumN(run, probs) as real
    ensures exists i | 0 <= i < |run| :: Prob(probs[run[i]]) <= ScoreRun(run, probs).wp
    ensures exists j | 0 <= j < |run| :: ScoreRun(run, probs).wp <= Prob(probs[run[j]])
  {
    PooledWithinMembers(run, probs);
    WeightedIsPooled(run, probs);
  }

  /** A run whose every bin reaches `threshold` scores at least `threshold`. */
  lemma WeightedAtLeast(run: seq<Slot>, probs: map<Slot, Cell>, threshold: real)
    requires run != [] && Within(run, probs) && Sampled(probs)
    requires forall i | 0 <= i < |run| :: Prob(probs[run[i]]) >= threshold
    ensures SumN(run, probs) > 0
    ensures ScoreRun(run, probs).wp >= threshold
  {
    WeightedWithinMembers(run, probs);
  }

  /** The scoring loop keeps a run when it is long enough and has samples. */
  predicate Kept(run: seq<Slot>, probs: map<Slot, Cell>, minRunBins: int)
    requires Within(run, probs)
  {
    |run| >= minRunBins && SumN(run, probs) > 0
  }

  predicate AllWithin(runs: seq<seq<Slot>>, probs: map<Slot, Cell>) {
    forall i | 0 <= i < |runs| :: runs[i] != [] && Within(runs[i], probs)
  }

  /** Each run ends before the next one starts. */
  predicate RunsOrdered(runs: seq<seq<Slot>>)
    requires forall i | 0 <= i < |runs| :: runs[i] != []
  {
    && (forall i | 0 <= i < |runs| :: ToMin(runs[i][0]) <= ToMin(Last(runs[i])))
    && (forall i, j | 0 <= i < j < |runs| :: ToMin(Last(runs[i])) < ToMin(runs[j][0]))
  }

  /** Intervals are well formed, sorted by start and pairwise disjoint. */
  predicate IntervalsOrdered(ivs: seq<Interval>) {
    && (forall i | 0 <= i < |ivs| :: ToMin(ivs[i].start) <= ToMin(ivs[i].end))
    && (forall i, j | 0 <= i < j < |ivs| :: ToMin(ivs[i].end) < ToMin(ivs[j].start))
  }

  /** `iv` is the score of some kept run among `runs`. */
  predicate FromKeptRun(iv: Interval, runs: seq<seq<Slot>>, probs: map<Slot, Cell>, minRunBins: int)
    requires AllWithin(runs, probs) && Sampled(probs)
  {
    exists i | 0 <= i < |runs| :: Kept(runs[i], probs, minRunBins) && iv == ScoreRun(runs[i], probs)
  }

  /**
   * The scoring loop shared by `merge_and_score` and `top_k_runs`: one
   * interval per kept run, in run order, and nothing else.
   */
  function ScoreRuns(runs: seq<seq<Slot>>, probs: map<Slot, Cell>, minRunBins: int): (ivs: seq<Interval>)
    requires AllWithin(runs, probs) && Sampled(probs)
    ensures |ivs| <= |runs|
    ensures forall k | 0 <= k < |ivs| :: FromKeptRun(ivs[k], runs, probs, minRunBins)
  {
    if runs == [] then []
    else
      var rest := ScoreRuns(runs[1..], probs, minRunBins);
      FromKeptRunTail(runs, probs, minRunBins, rest);
      if Kept(runs[0], probs, minRunBins) then
        var ivs := [ScoreRun(runs[0], probs)] + rest;
        assert FromKeptRun(ivs[0], runs, probs, minRunBins);
        assert forall k | 0 < k < |ivs| :: ivs[k] == rest[k - 1];
        ivs
      else rest
  }

  lemma FromKeptRunTail(runs: seq<seq<Slot>>, probs: map<Slot, Cell>, minRunBins: int, ivs: seq<Interval>)
    requires runs != [] && AllWithin(runs, probs) && Sampled(probs)
    requires forall k | 0 <= k < |ivs| :: FromKeptRun(ivs[k], runs[1..], probs, minRunBins)
    ensures forall k | 0 <= k < |ivs| :: FromKeptRun(ivs[k], runs, probs, minRunBins)
  {
    var rest := runs[1..];
    forall k | 0 <= k < |ivs|
      ensures FromKeptRun(ivs[k], runs, probs, minRunBins)
    {
      var iv := ivs[k];
      assert FromKeptRun(iv, rest, probs, minRunBins);
      var i :| 0 <= i < |rest| && Kept(rest[i], probs, minRunBins) && iv == ScoreRun(rest[i], probs);
      assert rest[i] == runs[i + 1];
    }
  }

  /** No kept run is lost. */
  lemma {:induction false} ScoreRunsComplete(runs: seq<seq<Slot>>, probs: map<Slot, Cell>, minRunBins: int)
    requires AllWithin(runs, probs) && Sampled(probs)
    ensures forall i | 0 <= i < |runs| && Kept(runs[i], probs, minRunBins) ::
      ScoreRun(runs[i], probs) in ScoreRuns(runs, probs, minRunBins)
  {
    if runs != [] {
      ScoreRunsComplete(runs[1..], probs, minRunBins);
      assert forall i | 0 < i < |runs| :: runs[1..][i - 1] == runs[i];
    }
  }

  /** Scoring keeps each interval's bounds inside its run, so what starts late stays late. */
  lemma {:induction false} ScoredStartAfter(runs: seq<seq<Slot>>, probs: map<Slot, Cell>, minRunBins: int, bound: int)
    requires AllWithin(runs, probs) && Sampled(probs)
    requires forall i | 0 <= i < |runs| :: bound < ToMin(runs[i][0])
    ensures forall k | 0 <= k < |ScoreRuns(runs, probs, minRunBins)| ::
      bound < ToMin(ScoreRuns(runs, probs, minRunBins)[k].start)
  {
    var ivs := ScoreRuns(runs, probs, minRunBins);
    forall k | 0 <= k < |ivs|
      ensures bound < ToMin(ivs[k].start)
    {
      assert FromKeptRun(ivs[k], runs, probs, minRunBins);
    }
  }

  /** An interval that ends before every later one starts extends a sorted, disjoint list. */
  lemma ConsOrdered(head: Interval, tail: seq<Interval>)
    requires ToMin(head.start) <= ToMin(head.end) && IntervalsOrdered(tail)
    requires forall k | 0 <= k < |tail| :: ToMin(head.end) < ToMin(tail[k].start)
    ensures IntervalsOrdered([head] + tail)
  {
    var ivs := [head] + tail;
    assert forall k | 0 < k < |ivs| :: ivs[k] == tail[k - 1];
  }

  /** Scoring keeps the runs' order: ordered runs give sorted, disjoint intervals. */
  lemma {:induction false} ScoreRunsOrdered(runs: seq<seq<Slot>>, probs: map<Slot, Cell>, minRunBins: int)
    requires AllWithin(runs, probs) && Sampled(probs)
    requires RunsOrdered(runs)
    ensures IntervalsOrdered(ScoreRuns(runs, probs, minRunBins))
  {
    if runs != [] {
      var rest := runs[1..];
      assert forall i | 0 <= i < |rest| :: rest[i] == runs[i + 1];
      ScoreRunsOrdered(rest, probs, minRunBins);
      var tail := ScoreRuns(rest, probs, minRunBins);
      if Kept(runs[0], probs, minRunBins) {
        var head := ScoreRun(runs[0], probs);
        ScoredStartAfter(rest, probs, minRunBins, ToMin(head.end));
        ConsOrdered(head, tail);
      }
    }
  }

  lemma {:induction false} FlattenMember<T>(xss: seq<seq<T>>, i: nat, j: nat)
    requires i < |xss| && j < |xss[i]|
    ensures xss[i][j] in Flatten(xss)
  {
    var front := xss[..|xss| - 1];
    if i < |xss| - 1 {
      assert xss[i] == front[i];
      FlattenMember(front, i, j);
    }
  }

  lemma {:induction false} SumNPositive(run: seq<Slot>, probs: map<Slot, Cell>)
    requires run != [] && Within(run, probs) && Sampled(probs)
    ensures SumN(run, probs) > 0
  {
  }

  lemma OrderedExtend(prev: seq<seq<Slot>>, cur: Slot)
    requires prev != [] && forall i | 0 <= i < |prev| :: prev[i] != []
    requires RunsOrdered(prev) && ToMin(Last(Last(prev))) < ToMin(cur)
    ensures RunsOrdered(prev[..|prev| - 1] + [Last(prev) + [cur]])
  {
    var runs := prev[..|prev| - 1] + [Last(prev) + [cur]];
    assert forall i | 0 <= i < |prev| - 1 :: runs[i] == prev[i];
    assert runs[|prev| - 1][0] == prev[|prev| - 1][0];
  }

  lemma OrderedAppend(prev: seq<seq<Slot>>, cur: Slot)
    requires forall i | 0 <= i < |prev| :: prev[i] != []
    requires RunsOrdered(prev)
    requires prev != [] ==> ToMin(Last(Last(prev))) < ToMin(cur)
    ensures RunsOrdered(prev + [[cur]])
  {
    var runs := prev + [[cur]];
    assert forall i | 0 <= i < |prev| :: runs[i] == prev[i];
    assert forall i | 0 <= i < |prev| :: ToMin(Last(prev[i])) <= ToMin(Last(Last(prev)));
  }

  /** The last key either extends the last run or starts a run of its own. */
  lemma SplitRunsLast(keys: seq<Slot>, step: int)
    requires keys != []
    ensures var prev := SplitRuns(keys[..|keys| - 1], step);
      var cur := Last(keys);
      SplitRuns(keys, step) ==
        if prev != [] && ToMin(cur) - ToMin(Last(Last(prev))) == step
        then prev[..|prev| - 1] + [Last(prev) + [cur]]
        else prev + [[cur]]
  {
  }

  /** Cutting ascending keys gives runs that follow one another without overlap. */
  lemma {:induction false} SplitRunsOrdered(keys: seq<Slot>, step: int)
    requires Ascending(keys)
    ensures RunsOrdered(SplitRuns(keys, step))
    ensures keys != [] ==> Last(Last(SplitRuns(keys, step))) == Last(keys)
  {
    if keys != [] {
      var cur := Last(keys);
      var pk := keys[..|keys| - 1];
      assert Ascending(pk) by {
        assert forall i | 0 <= i < |pk| :: pk[i] == keys[i];
      }
      SplitRunsOrdered(pk, step);
      SplitRunsLast(keys, step);
      var prev := SplitRuns(pk, step);
      if prev != [] {
        assert Last(Last(prev)) == keys[|keys| - 2];
        assert ToMin(keys[|keys| - 2]) < ToMin(cur);
        if ToMin(cur) - ToMin(Last(Last(prev))) == step {
          OrderedExtend(prev, cur);
        } else {
          OrderedAppend(prev, cur);
        }
      } else {
        OrderedAppend(prev, cur);
      }
    }
  }

  /** Runs made only of bins at the threshold score at the threshold. */
  lemma {:induction false} ScoreRunsAtLeast(runs: seq<seq<Slot>>, probs: map<Slot, Cell>, minRunBins: int, threshold: real)
    requires AllWithin(runs, probs) && Sampled(probs)
    requires forall i, j | 0 <= i < |runs| && 0 <= j < |runs[i]| :: Prob(probs[runs[i][j]]) >= threshold
    ensures forall k | 0 <= k < |ScoreRuns(runs, probs, minRunBins)| :: ScoreRuns(runs, probs, minRunBins)[k].wp >= threshold
  {
    if runs != [] {
      var rest := runs[1..];
      assert forall i | 0 <= i < |rest| :: rest[i] == runs[i + 1];
      ScoreRunsAtLeast(rest, probs, minRunBins, threshold);
      assert forall j | 0 <= j < |runs[0]| :: Prob(probs[runs[0][j]]) >= threshold;
      WeightedAtLeast(runs[0], probs, threshold);
    }
  }
}
