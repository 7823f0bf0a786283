/**
 * The weekly report of recommend_week.py: for each weekday, the contiguous
 * runs of bins whose availability reaches the threshold; failing that, the
 * best observed runs ranked by weighted probability; failing that, the number
 * of measures of the day.
 */
module Recommend {
  import opened Wrappers
  import opened Clock
  import opened Samples
  import opened Aggregation
  import opened Runs
  import opened Ranking
  import opened Seqs

  /** THRESHOLD, MIN_RUN_BINS, MIN_SAMPLES_PER_BIN and TOP_K. */
  datatype Policy = Policy(threshold: real, minRunBins: int, minSamplesPerBin: int, topK: int)

  const DefaultPolicy: Policy := Policy(0.80, 2, 1, 3)

  /** The `probs` table of both helpers: the bins of the day holding at least one sample. */
  function Observed(day: map<Slot, Cell>): (probs: map<Slot, Cell>)
    ensures Sampled(probs)
    ensures forall s :: s in probs <==> s in day && day[s].n != 0
    ensures forall s | s in probs :: probs[s] == day[s]
  {
    map s | s in day && day[s].n != 0 :: day[s]
  }

  /** A bin goes into `safe_keys` when its probability and sample count are high enough. */
  predicate SafeCell(c: Cell, policy: Policy)
    requires c.n > 0
  {
    Prob(c) >= policy.threshold && c.n >= policy.minSamplesPerBin
  }

  function SafeKeys(day: map<Slot, Cell>, policy: Policy): (keys: set<Slot>)
    ensures keys <= Observed(day).Keys
    ensures forall s | s in keys :: SafeCell(day[s], policy)
    ensures forall s | s in day && day[s].n > 0 && SafeCell(day[s], policy) :: s in keys
  {
    set s | s in day && day[s].n != 0 && SafeCell(day[s], policy)
  }

  /**
   * The runs cut from a set of bins once sorted by time of day: every bin of
   * the set sits in exactly the runs, each run is a chain of neighbouring
   * bins, two runs in a row are not neighbours, and runs come in time order.
   */
  function RunsOf(keys: set<Slot>, step: int): (runs: seq<seq<Slot>>)
    ensures forall i | 0 <= i < |runs| :: runs[i] != [] && Chained(runs[i], step)
    ensures Separated(runs, step)
    ensures RunsOrdered(runs)
    ensures forall s :: s in keys <==> s in Flatten(runs)
    ensures forall i, j | 0 <= i < |runs| && 0 <= j < |runs[i]| :: runs[i][j] in keys
  {
    var sorted := SortedSlots(keys);
    var runs := SplitRuns(sorted, step);
    SplitRunsOrdered(sorted, step);
    assert forall i, j | 0 <= i < |runs| && 0 <= j < |runs[i]| :: runs[i][j] in keys by {
      forall i, j | 0 <= i < |runs| && 0 <= j < |runs[i]|
        ensures runs[i][j] in keys
      {
        FlattenMember(runs, i, j);
      }
    }
    runs
  }

  /** The runs of safe bins that `merge_and_score` scores. */
  function SafeRuns(day: map<Slot, Cell>, b: Binning, policy: Policy): (runs: seq<seq<Slot>>)
    ensures AllWithin(runs, Observed(day)) && RunsOrdered(runs)
    ensures forall i, j | 0 <= i < |runs| && 0 <= j < |runs[i]| :: runs[i][j] in SafeKeys(day, policy)
  {
    RunsOf(SafeKeys(day, policy), b.binMinutes)
  }

  /** The runs of observed bins that `top_k_runs` scores. */
  function ObservedRuns(day: map<Slot, Cell>, b: Binning): (runs: seq<seq<Slot>>)
    ensures AllWithin(runs, Observed(day)) && RunsOrdered(runs)
  {
    RunsOf(Observed(day).Keys, b.binMinutes)
  }

  /** `merge_and_score`: the scored runs of safe bins, in time order. */
  function MergeAndScore(day: map<Slot, Cell>, b: Binning, policy: Policy): (merged: seq<Interval>)
    ensures IntervalsOrdered(merged)
    ensures forall k | 0 <= k < |merged| ::
      FromKeptRun(merged[k], SafeRuns(day, b, policy), Observed(day), policy.minRunBins)
  {
    if SafeKeys(day, policy) == {} then []
    else
      var runs := SafeRuns(day, b, policy);
      ScoreRunsOrdered(runs, Observed(day), policy.minRunBins);
      ScoreRuns(runs, Observed(day), policy.minRunBins)
  }

  /** Every interval `merge_and_score` returns reaches the threshold. */
  lemma MergedMeetThreshold(day: map<Slot, Cell>, b: Binning, policy: Policy)
    ensures forall k | 0 <= k < |MergeAndScore(day, b, policy)| ::
      MergeAndScore(day, b, policy)[k].wp >= policy.threshold
  {
    if SafeKeys(day, policy) != {} {
      var runs := SafeRuns(day, b, policy);
      var probs := Observed(day);
      forall i, j | 0 <= i < |runs| && 0 <= j < |runs[i]|
        ensures Prob(probs[runs[i][j]]) >= policy.threshold
      {
        var s := runs[i][j];
        assert s in SafeKeys(day, policy);
        assert SafeCell(day[s], policy) && probs[s] == day[s];
      }
      ScoreRunsAtLeast(runs, probs, policy.minRunBins, policy.threshold);
    }
  }

  /** Every run of safe bins that is long enough gets its interval. */
  lemma MergedComplete(day: map<Slot, Cell>, b: Binning, policy: Policy)
    ensures forall i | 0 <= i < |SafeRuns(day, b, policy)| && |SafeRuns(day, b, policy)[i]| >= policy.minRunBins ::
      ScoreRun(SafeRuns(day, b, policy)[i], Observed(day)) in MergeAndScore(day, b, policy)
  {
    var runs := SafeRuns(day, b, policy);
    var probs := Observed(day);
    ScoreRunsComplete(runs, probs, policy.minRunBins);
    forall i | 0 <= i < |runs| && |runs[i]| >= policy.minRunBins
      ensures Kept(runs[i], probs, policy.minRunBins)
    {
      SumNPositive(runs[i], probs);
    }
  }

  /** `merge_and_score` comes back empty exactly when no run of safe bins is long enough. */
  lemma MergedEmptyIff(day: map<Slot, Cell>, b: Binning, policy: Policy)
    ensures MergeAndScore(day, b, policy) == [] <==>
      forall i | 0 <= i < |SafeRuns(day, b, policy)| :: |SafeRuns(day, b, policy)[i]| < policy.minRunBins
  {
    var merged := MergeAndScore(day, b, policy);
    var runs := SafeRuns(day, b, policy);
    MergedComplete(day, b, policy);
    if merged != [] {
      assert FromKeptRun(merged[0], runs, Observed(day), policy.minRunBins);
    }
  }

  /** The scored runs of observed bins, before ranking. */
  function Scored(day: map<Slot, Cell>, b: Binning, policy: Policy): (scored: seq<Interval>)
    ensures forall iv | iv in scored :: FromKeptRun(iv, ObservedRuns(day, b), Observed(day), policy.minRunBins)
  {
    ScoreRuns(ObservedRuns(day, b), Observed(day), policy.minRunBins)
  }

  lemma ScoredEmpty(day: map<Slot, Cell>, b: Binning, policy: Policy)
    requires Observed(day) == map[]
    ensures Scored(day, b, policy) == []
  {
    assert Observed(day).Keys == {};
    assert SortedSlots({}) == [];
  }

  /** `top_k_runs`: the best `k` scored runs of observed bins, best first. */
  function TopKRuns(day: map<Slot, Cell>, b: Binning, policy: Policy): (alt: seq<Interval>)
    ensures SortedByRank(alt)
    ensures policy.topK >= 0 ==>
      |alt| == if policy.topK < |Scored(day, b, policy)| then policy.topK else |Scored(day, b, policy)|
    ensures multiset(alt) <= multiset(Scored(day, b, policy))
    ensures forall k | 0 <= k < |alt| ::
      FromKeptRun(alt[k], ObservedRuns(day, b), Observed(day), policy.minRunBins)
  {
    if Observed(day) == map[] then
      ScoredEmpty(day, b, policy);
      []
    else
      var scored := Scored(day, b, policy);
      TopOfRankingFrom(scored, policy.topK);
      TopOfRankingCount(scored, policy.topK);
      Take(SortByRank(scored), policy.topK)
  }

  /** No scored run left out of the top `k` ranks above one that was kept. */
  lemma TopKAreBest(day: map<Slot, Cell>, b: Binning, policy: Policy)
    ensures forall x | x in Scored(day, b, policy) ::
      x in TopKRuns(day, b, policy) || Outranked(x, TopKRuns(day, b, policy))
  {
    var scored := Scored(day, b, policy);
    if Observed(day) == map[] {
      assert SortedSlots({}) == [];
      assert scored == [];
    } else {
      var ranked := SortByRank(scored);
      TakeKeepsBest(ranked, policy.topK);
      forall x | x in scored
        ensures exists p | 0 <= p < |ranked| :: ranked[p] == x
      {
        assert x in multiset(scored);
        assert x in multiset(ranked);
      }
    }
  }

  /** With `k` at least one, `top_k_runs` is empty exactly when no observed run is long enough. */
  lemma TopKEmptyIff(day: map<Slot, Cell>, b: Binning, policy: Policy)
    requires policy.topK >= 1
    ensures TopKRuns(day, b, policy) == [] <==>
      forall i | 0 <= i < |ObservedRuns(day, b)| :: |ObservedRuns(day, b)[i]| < policy.minRunBins
  {
    var runs := ObservedRuns(day, b);
    var probs := Observed(day);
    var scored := Scored(day, b, policy);
    var alt := TopKRuns(day, b, policy);
    ScoreRunsComplete(runs, probs, policy.minRunBins);
    if Observed(day) == map[] {
      assert SortedSlots({}) == [];
      assert runs == [];
    } else {
      var ranked := SortByRank(scored);
      assert |ranked| == |scored| by {
        assert |multiset(ranked)| == |multiset(scored)|;
      }
      if alt != [] {
        assert FromKeptRun(alt[0], runs, probs, policy.minRunBins);
      } else {
        assert scored == [];
        forall i | 0 <= i < |runs|
          ensures |runs[i]| < policy.minRunBins
        {
          SumNPositive(runs[i], probs);
        }
      }
    }
  }

  /** What the report prints for one weekday. */
  datatype DayReport =
    | Safe(intervals: seq<Interval>)
    | BestObserved(intervals: seq<Interval>)
    | NothingUsable(measures: nat)

  /** `total_measures`: the samples of the day, over all of its bins. */
  function Measures(day: map<Slot, Cell>): (total: nat)
    ensures day == map[] ==> total == 0
    ensures forall s | s in day :: day[s].n <= total
  {
    BinsWithinMeasures(day);
    SumN(SortedSlots(day.Keys), day)
  }

  lemma BinsWithinMeasures(day: map<Slot, Cell>)
    ensures Within(SortedSlots(day.Keys), day)
    ensures forall s | s in day :: day[s].n <= SumN(SortedSlots(day.Keys), day)
  {
    WithinSorted(day.Keys, day);
    forall s | s in day
      ensures day[s].n <= SumN(SortedSlots(day.Keys), day)
    {
      SumOverSlots(day, day.Keys, s);
    }
  }

  /** The per-day branch of the report. */
  function DayReportOf(day: map<Slot, Cell>, b: Binning, policy: Policy): (d: DayReport)
    ensures d.Safe? ==> IntervalsOrdered(d.intervals) && d.intervals == MergeAndScore(day, b, policy)
    ensures d.BestObserved? ==>
      SortedByRank(d.intervals) && MergeAndScore(day, b, policy) == [] && d.intervals == TopKRuns(day, b, policy)
    ensures d.NothingUsable? ==>
      MergeAndScore(day, b, policy) == [] && TopKRuns(day, b, policy) == [] && d.measures == Measures(day)
  {
    var merged := MergeAndScore(day, b, policy);
    if merged != [] then Safe(merged)
    else
      var alt := TopKRuns(day, b, policy);
      if alt != [] then BestObserved(alt)
      else NothingUsable(Measures(day))
  }

  /**
   * How the day report reads the runs: a safe report lists only intervals at
   * the threshold; any other report means no run of safe bins is long enough;
   * and "nothing usable" (with `k` at least one) means no run of observed bins
   * is long enough either.
   */
  lemma DayReportMeaning(day: map<Slot, Cell>, b: Binning, policy: Policy)
    requires policy.topK >= 1
    ensures var d := DayReportOf(day, b, policy);
      && (d.Safe? ==> forall k | 0 <= k < |d.intervals| :: d.intervals[k].wp >= policy.threshold)
      && (!d.Safe? <==>
            forall i | 0 <= i < |SafeRuns(day, b, policy)| :: |SafeRuns(day, b, policy)[i]| < policy.minRunBins)
      && (d.NothingUsable? <==>
            && (forall i | 0 <= i < |SafeRuns(day, b, policy)| :: |SafeRuns(day, b, policy)[i]| < policy.minRunBins)
            && (forall i | 0 <= i < |ObservedRuns(day, b)| :: |ObservedRuns(day, b)[i]| < policy.minRunBins))
  {
    MergedMeetThreshold(day, b, policy);
    MergedEmptyIff(day, b, policy);
    TopKEmptyIff(day, b, policy);
  }

  /** The whole report: nothing to analyse, or one line per weekday from Monday to Saturday. */
  datatype Report = NoData | Week(days: seq<DayReport>)

  function Recommend(read: seq<Option<RawSample>>, b: Binning, policy: Policy): (rep: Report)
    ensures rep.NoData? <==> forall j | 0 <= j < |read| :: Normalise(read[j], b).None?
    ensures rep.Week? ==> |rep.days| == 6
    ensures rep.Week? ==> forall wd | 0 <= wd < 6 ::
      rep.days[wd] == DayReportOf(DayBins(Aggregate(Records(read, b)), wd), b, policy)
  {
    var rs := Records(read, b);
    if rs == [] then NoData
    else
      var m := Aggregate(rs);
      Week(seq(6, wd requires 0 <= wd < 6 => DayReportOf(DayBins(m, wd), b, policy)))
  }

  /** The report depends on the multiset of rows, not on their order in the file. */
  lemma RecommendOrderIndependent(a: seq<Option<RawSample>>, c: seq<Option<RawSample>>, b: Binning, policy: Policy)
    requires multiset(a) == multiset(c)
    ensures Recommend(a, b, policy) == Recommend(c, b, policy)
  {
    RecordsPermutation(a, c, b);
    var ra := Records(a, b);
    var rc := Records(c, b);
    AggregateOrderIndependent(ra, rc);
    if ra == [] {
      assert |rc| == |multiset(rc)| == 0;
    } else {
      assert rc != [] by {
        assert |multiset(rc)| == |multiset(ra)| > 0;
      }
    }
  }

  /** Adding a record of another weekday leaves a day's bins as they were. */
  lemma DayBinsOtherDay(rs: seq<Record>, r: Record, wd: Weekday)
    requires r.weekday != wd
    ensures DayBins(Aggregate(rs + [r]), wd) == DayBins(Aggregate(rs), wd)
  {
    AppendRecord(rs, r);
  }

  /** How many records fall on the weekday. */
  function RecordsOn(rs: seq<Record>, wd: Weekday): nat {
    if rs == [] then 0
    else RecordsOn(rs[..|rs| - 1], wd) + (if rs[|rs| - 1].weekday == wd then 1 else 0)
  }

  /** Two tables that agree on the sample counts of a run's bins give the run the same samples. */
  lemma {:induction false} SumNAgree(run: seq<Slot>, p: map<Slot, Cell>, q: map<Slot, Cell>)
    requires Within(run, p) && Within(run, q)
    requires forall i | 0 <= i < |run| :: p[run[i]].n == q[run[i]].n
    ensures SumN(run, p) == SumN(run, q)
  {
    if run != [] {
      SumNAgree(run[1..], p, q);
    }
  }

  lemma WithinSorted(keys: set<Slot>, day: map<Slot, Cell>)
    requires keys <= day.Keys
    ensures Within(SortedSlots(keys), day)
  {
    var sorted := SortedSlots(keys);
    forall i | 0 <= i < |sorted|
      ensures sorted[i] in day
    {
      assert sorted[i] in sorted;
    }
  }

  /** The sorted bins of a set start with its earliest bin, whichever way that bin was picked. */
  lemma SortedSlotsFrom(keys: set<Slot>, m: Slot)
    requires IsEarliest(m, keys)
    ensures SortedSlots(keys) == [m] + SortedSlots(keys - {m})
  {
    var m' := MinSlot(keys);
    ToMinOrdersLikeTuples(m, m');
  }

  lemma SumNCons(x: Slot, rest: seq<Slot>, day: map<Slot, Cell>)
    requires Within([x] + rest, day)
    ensures x in day && Within(rest, day)
    ensures SumN([x] + rest, day) == day[x].n + SumN(rest, day)
  {
    assert ([x] + rest)[0] == x && ([x] + rest)[1..] == rest;
    assert forall i | 0 <= i < |rest| :: rest[i] == ([x] + rest)[i + 1];
  }

  /** The samples over a set of bins are those of its earliest bin plus those of the rest. */
  lemma SumFromEarliest(day: map<Slot, Cell>, keys: set<Slot>, m: Slot)
    requires keys <= day.Keys && IsEarliest(m, keys)
    ensures Within(SortedSlots(keys), day) && Within(SortedSlots(keys - {m}), day)
    ensures SumN(SortedSlots(keys), day) == day[m].n + SumN(SortedSlots(keys - {m}), day)
  {
    WithinSorted(keys, day);
    SortedSlotsFrom(keys, m);
    SumNCons(m, SortedSlots(keys - {m}), day);
  }

  /**
   * Summing the samples over a set of bins does not depend on the order: it
   * is any one bin's samples plus the samples of the others.
   */
  lemma {:induction false} SumOverSlots(day: map<Slot, Cell>, keys: set<Slot>, s: Slot)
    requires keys <= day.Keys && s in keys
    ensures Within(SortedSlots(keys), day) && Within(SortedSlots(keys - {s}), day)
    ensures SumN(SortedSlots(keys), day) == day[s].n + SumN(SortedSlots(keys - {s}), day)
    decreases |keys|
  {
    WithinSorted(keys, day);
    WithinSorted(keys - {s}, day);
    var m := MinSlot(keys);
    WithinSorted(keys - {m}, day);
    WithinSorted(keys - {m} - {s}, day);
    assert SumN(SortedSlots(keys), day) == day[m].n + SumN(SortedSlots(keys - {m}), day) by {
      SumFromEarliest(day, keys, m);
    }
    if s != m {
      assert SumN(SortedSlots(keys - {m}), day) == day[s].n + SumN(SortedSlots(keys - {m} - {s}), day) by {
        SumOverSlots(day, keys - {m}, s);
      }
      var others := keys - {s};
      assert IsEarliest(m, others);
      RemoveTwice(keys, s, m);
      SumFromEarliest(day, others, m);
    }
  }

  /** One more sample in one bin, and no other change, adds one to the day's measures. */
  lemma MeasuresBump(before: map<Slot, Cell>, after: map<Slot, Cell>, k: Slot)
    requires k in after && after[k].n == (if k in before then before[k].n else 0) + 1
    requires forall x | x != k :: x in after <==> x in before
    requires forall x | x != k && x in before :: after[x].n == before[x].n
    ensures Measures(after) == Measures(before) + 1
  {
    var rest := after.Keys - {k};
    KeysAgreeBut(after, before, k);
    SumOverSlots(after, after.Keys, k);
    WithinSorted(rest, before);
    var others := SortedSlots(rest);
    forall i | 0 <= i < |others|
      ensures after[others[i]].n == before[others[i]].n
    {
      assert others[i] in others;
    }
    SumNAgree(others, after, before);
    if k in before {
      SumOverSlots(before, before.Keys, k);
    } else {
      RemoveAbsent(before.Keys, k);
    }
  }

  /** A record adds one to the measures of its own weekday. */
  lemma MeasuresStep(rs: seq<Record>, r: Record)
    ensures Measures(DayBins(Aggregate(rs + [r]), r.weekday)) == Measures(DayBins(Aggregate(rs), r.weekday)) + 1
  {
    AppendRecord(rs, r);
    MeasuresBump(DayBins(Aggregate(rs), r.weekday), DayBins(Aggregate(rs + [r]), r.weekday), r.slot);
  }

  /** `total_measures` of a weekday is the number of that weekday's records. */
  lemma {:induction false} MeasuresCountsRecords(rs: seq<Record>, wd: Weekday)
    ensures Measures(DayBins(Aggregate(rs), wd)) == RecordsOn(rs, wd)
  {
    if rs != [] {
      var front := rs[..|rs| - 1];
      var r := rs[|rs| - 1];
      assert rs == front + [r];
      MeasuresCountsRecords(front, wd);
      if r.weekday != wd {
        DayBinsOtherDay(front, r, wd);
      } else {
        MeasuresStep(front, r);
      }
    }
  }

  /** A Sunday row changes nothing once the week has data: Sunday is never reported. */
  lemma SundayIgnored(read: seq<Option<RawSample>>, x: Option<RawSample>, b: Binning, policy: Policy)
    requires Records(read, b) != []
    requires Normalise(x, b).Some? && Normalise(x, b).value.weekday == 6
    ensures Recommend(read + [x], b, policy) == Recommend(read, b, policy)
  {
    var rs := Records(read, b);
    var r := Normalise(x, b).value;
    assert (read + [x])[..|read|] == read;
    assert Records(read + [x], b) == rs + [r];
    var before := Recommend(read, b, policy).days;
    var after := Recommend(read + [x], b, policy).days;
    forall wd | 0 <= wd < 6
      ensures after[wd] == before[wd]
    {
      DayBinsOtherDay(rs, r, wd);
    }
    assert after == before;
  }

  const FallbackDay: map<Slot, Cell> := map[Slot(9, 0) := Cell(2, 1), Slot(9, 15) := Cell(1, 1)]

  lemma FallbackSafeKeys()
    ensures SafeKeys(FallbackDay, DefaultPolicy) == {Slot(9, 15)}
  {
    var day := FallbackDay;
    assert Prob(day[Slot(9, 0)]) == 0.5;
    assert Prob(day[Slot(9, 15)]) == 1.0;
    assert day.Keys == {Slot(9, 0), Slot(9, 15)};
  }

  lemma SingleRun(x: Slot, step: int)
    ensures RunsOf({x}, step) == [[x]]
  {
    assert MinSlot({x}) == x;
    assert {x} - {x} == {};
    assert SortedSlots({}) == [];
    assert SortedSlots({x}) == [x];
    assert [x][..0] == [];
  }

  lemma FallbackNoSafeRun()
    ensures MergeAndScore(FallbackDay, DefaultBinning, DefaultPolicy) == []
  {
    FallbackSafeKeys();
    SingleRun(Slot(9, 15), 15);
    assert SafeRuns(FallbackDay, DefaultBinning, DefaultPolicy) == [[Slot(9, 15)]];
    MergedEmptyIff(FallbackDay, DefaultBinning, DefaultPolicy);
  }

  lemma FallbackSorted()
    ensures Observed(FallbackDay) == FallbackDay
    ensures SortedSlots(FallbackDay.Keys) == [Slot(9, 0), Slot(9, 15)]
  {
    var keys := FallbackDay.Keys;
    assert keys == {Slot(9, 0), Slot(9, 15)};
    assert MinSlot(keys) == Slot(9, 0);
    assert keys - {Slot(9, 0)} == {Slot(9, 15)};
    assert MinSlot({Slot(9, 15)}) == Slot(9, 15);
    assert {Slot(9, 15)} - {Slot(9, 15)} == {};
    assert SortedSlots({}) == [];
  }

  lemma FallbackSplit()
    ensures SplitRuns([Slot(9, 0), Slot(9, 15)], 15) == [[Slot(9, 0), Slot(9, 15)]]
  {
    var run := [Slot(9, 0), Slot(9, 15)];
    assert run[..1] == [Slot(9, 0)];
    assert SplitRuns([Slot(9, 0)], 15) == [[Slot(9, 0)]] by {
      assert [Slot(9, 0)][..0] == [];
    }
    var prev := [[Slot(9, 0)]];
    assert Last(Last(prev)) == Slot(9, 0);
    assert ToMin(Slot(9, 15)) - ToMin(Slot(9, 0)) == 15;
    assert Last(prev) == [Slot(9, 0)];
    assert [Slot(9, 0)] + [Slot(9, 15)] == run;
    assert prev[..0] == [];
  }

  lemma FallbackScore()
    ensures ScoreRun([Slot(9, 0), Slot(9, 15)], FallbackDay) == Interval(Slot(9, 0), Slot(9, 15), 2.0 / 3.0, 3)
  {
    var run := [Slot(9, 0), Slot(9, 15)];
    var day := FallbackDay;
    assert run[1..] == [Slot(9, 15)];
    assert run[1..][1..] == [];
    assert SumN(run, day) == 3;
    assert Prob(day[Slot(9, 0)]) == 0.5;
    assert Prob(day[Slot(9, 15)]) == 1.0;
    assert SumPN(run, day) == 2.0;
  }

  lemma FallbackObservedRun()
    ensures Scored(FallbackDay, DefaultBinning, DefaultPolicy) ==
      [Interval(Slot(9, 0), Slot(9, 15), 2.0 / 3.0, 3)]
  {
    FallbackSorted();
    FallbackSplit();
    var run := [Slot(9, 0), Slot(9, 15)];
    assert ObservedRuns(FallbackDay, DefaultBinning) == [run];
    FallbackScore();
    ScoreOneRun(run, FallbackDay, 2);
  }

  lemma ScoreOneRun(run: seq<Slot>, probs: map<Slot, Cell>, minRunBins: int)
    requires run != [] && Within(run, probs) && Sampled(probs) && Kept(run, probs, minRunBins)
    ensures AllWithin([run], probs)
    ensures ScoreRuns([run], probs, minRunBins) == [ScoreRun(run, probs)]
  {
    assert [run][0] == run;
    assert [run][1..] == [];
  }

  /**
   * The report falls back to the best observed runs even when a safe bin
   * exists, as long as no run of safe bins is long enough: here 09:15 is
   * always free, but 09:00 is free only half the time, so the only run of
   * two bins is the observed run 09:00-09:15, at two thirds.
   */
  lemma FallbackDespiteSafeBin()
    ensures SafeKeys(FallbackDay, DefaultPolicy) != {}
    ensures DayReportOf(FallbackDay, DefaultBinning, DefaultPolicy) ==
      BestObserved([Interval(Slot(9, 0), Slot(9, 15), 2.0 / 3.0, 3)])
  {
    FallbackSafeKeys();
    FallbackNoSafeRun();
    FallbackObservedRun();
    var iv := Interval(Slot(9, 0), Slot(9, 15), 2.0 / 3.0, 3);
    assert SortByRank([iv]) == [iv];
  }
}
