/**
 * The two scripts read the same rows with the same filters. When the bin
 * width divides an hour and the window lies inside 09:00-17:00, heatmap
 * column `s` is exactly the recommendation bin starting `s` bins after
 * 09:00, and both count the same rows in it.
 */
module Agreement {
  import opened Wrappers
  import opened Clock
  import opened Samples
  import opened Aggregation
  import opened Runs
  import opened Heatmap

  /** Settings under which both scripts cut the day the same way. */
  predicate Aligned(b: Binning) {
    60 % b.binMinutes == 0 && Origin <= b.windowStart && b.windowEnd <= Origin + 480
  }

  /** The recommendation bin that heatmap column `s` stands for. */
  function ColumnSlot(s: nat, bin: Positive): (slot: Slot)
    requires s < SlotsPerDay(bin)
    ensures ToMin(slot) == Origin + s * bin
  {
    SlotsPerDayCover(bin);
    MulMono(s + 1, SlotsPerDay(bin), bin);
    var m := Origin + s * bin;
    Slot(m / 60, m % 60)
  }

  lemma DivUnique(x: int, d: Positive, q: int, r: int)
    requires x == q * d + r && 0 <= r < d
    ensures x / d == q
  {
    var q' := x / d;
    var r' := x % d;
    assert x == q' * d + r';
    if q' < q {
      MulMono(q' + 1, q, d);
    } else if q' > q {
      MulMono(q + 1, q', d);
    }
  }

  /**
   * For an aligned binning, the column a row falls in and the bin it is
   * given are the same place in the day.
   */
  lemma {:induction false} ColumnOfBin(t: LocalStamp, b: Binning)
    requires Aligned(b) && Origin <= MinuteOfDay(t)
    ensures ToMin(Slot(t.hour, BinMinute(t.minute, b.binMinutes))) == Origin + HeatSlot(t, b.binMinutes) * b.binMinutes
  {
    var bin := b.binMinutes;
    var q: int := 60 / bin;
    assert q * bin == 60;
    var u := t.minute / bin;
    var rem := t.minute % bin;
    assert t.minute == u * bin + rem;
    var col := (t.hour - 9) * q + u;
    assert (t.hour - 9) * 60 + t.minute == col * bin + rem by {
      assert (t.hour - 9) * 60 == (t.hour - 9) * q * bin;
      assert (t.hour - 9) * q * bin + u * bin == col * bin;
    }
    DivUnique((t.hour - 9) * 60 + t.minute, bin, col, rem);
    assert HeatSlot(t, bin) == col;
    assert ToMin(Slot(t.hour, BinMinute(t.minute, bin))) == t.hour * 60 + u * bin;
  }

  /**
   * A row is counted in column `s` of weekday `wd` exactly when its record
   * falls in the bin `ColumnSlot(s)` of that weekday, and it counts as a
   * success in both or in neither.
   */
  lemma RowAgrees(x: Option<RawSample>, b: Binning, wd: Weekday, s: nat)
    requires Aligned(b) && s < SlotsPerDay(b.binMinutes)
    ensures var h := HeatEntry(x, b);
      var r := Normalise(x, b);
      && (h.Some? && h.value.weekday == wd && h.value.slot == s <==>
          r.Some? && KeyOf(r.value) == (wd, ColumnSlot(s, b.binMinutes)))
      && (h.Some? <==> r.Some?)
      && (h.Some? ==> (h.value.success <==> Aggregation.Success(r.value)))
  {
    var bin := b.binMinutes;
    var q: int := 60 / bin;
    assert 480 == q * 8 * bin;
    BoundsCheckNeverRejects(x, b);
    var h := HeatEntry(x, b);
    var r := Normalise(x, b);
    if h.Some? {
      var t := x.value.stamp;
      ColumnOfBin(t, b);
      ToMinOrdersLikeTuples(r.value.slot, ColumnSlot(s, bin));
      MulMono(h.value.slot, s, bin);
      MulMono(s, h.value.slot, bin);
    }
  }

  /**
   * Column `s` of weekday `wd` in the heatmap table holds the same counts as
   * the recommendation bin `ColumnSlot(s)` of that weekday.
   */
  lemma {:induction false} ColumnCounts(read: seq<Option<RawSample>>, b: Binning, wd: Weekday, s: nat)
    requires Aligned(b) && s < SlotsPerDay(b.binMinutes)
    ensures var key := (wd, ColumnSlot(s, b.binMinutes));
      ScanRows(read, b).grid[wd][s] == Cell(Hits(Records(read, b), key), OkHits(Records(read, b), key))
  {
    var key := (wd, ColumnSlot(s, b.binMinutes));
    if read != [] {
      var front := read[..|read| - 1];
      var x := read[|read| - 1];
      ColumnCounts(front, b, wd, s);
      RowAgrees(x, b, wd, s);
      if Normalise(x, b).Some? {
        var r := Normalise(x, b).value;
        HitsAppend(Records(front, b), [r], key);
        assert [r][..0] == [];
      }
    }
  }

  /**
   * The heatmap's cell is the recommendation's bin: the same `Cell` when the
   * bin was seen, no measures at all when it was not.
   */
  lemma HeatmapAgreesWithRecommend(read: seq<Option<RawSample>>, b: Binning, wd: Weekday, s: nat)
    requires Aligned(b) && s < SlotsPerDay(b.binMinutes)
    ensures var m := Aggregate(Records(read, b));
      var key := (wd, ColumnSlot(s, b.binMinutes));
      ScanRows(read, b).grid[wd][s] == if key in m then m[key] else Cell(0, 0)
  {
    var rs := Records(read, b);
    var key := (wd, ColumnSlot(s, b.binMinutes));
    ColumnCounts(read, b, wd, s);
    OkHitsAtMostHits(rs, key);
  }

  /**
   * From Monday to Saturday, the heatmap shows a probability in column `s`
   * exactly when the day's bins hold `ColumnSlot(s)`, and it is that bin's
   * probability.
   */
  lemma MatrixAgreesWithDayBins(read: seq<Option<RawSample>>, b: Binning, wd: Weekday, s: nat)
    requires Aligned(b) && wd < 6 && s < SlotsPerDay(b.binMinutes)
    ensures var day := DayBins(Aggregate(Records(read, b)), wd);
      var slot := ColumnSlot(s, b.binMinutes);
      var cell := Matrix(ScanRows(read, b).grid, SlotsPerDay(b.binMinutes))[wd][s];
      && (cell.Some? <==> slot in day)
      && (cell.Some? ==> cell.value == Prob(day[slot]))
  {
    var rs := Records(read, b);
    HeatmapAgreesWithRecommend(read, b, wd, s);
    CellsBounded(rs);
  }
}
