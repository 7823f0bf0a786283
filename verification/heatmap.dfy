/**
 * The weekly heatmap of heatmap_week.py: a 7-by-S table of (measures,
 * successes) filled from the rows, the Monday-to-Saturday probability
 * matrix drawn from it, the "no usable data" outcome and the hour ticks of
 * the x axis.
 */
module Heatmap {
  import opened Wrappers
  import opened Text
  import opened Clock
  import opened Samples
  import opened Aggregation
  import opened Runs

  /** The columns count from 09:00 whatever the window: the origin is hard-coded. */
  const Origin: int := 9 * 60

  /** `SLOTS_PER_DAY`: the eight hours from 09:00 to 17:00 cut into whole bins. */
  function SlotsPerDay(bin: Positive): nat {
    480 / bin
  }

  /** The columns cover the eight hours but for a remainder shorter than one bin. */
  lemma SlotsPerDayCover(bin: Positive)
    ensures SlotsPerDay(bin) * bin <= 480 < (SlotsPerDay(bin) + 1) * bin
  {
  }

  /** `minutes_since_start // BIN_MINUTES`, floored as Python does. */
  function HeatSlot(t: LocalStamp, bin: Positive): int {
    ((t.hour - 9) * 60 + t.minute) / bin
  }

  /** A row's column is the bin, counted from 09:00, that holds its minute. */
  lemma HeatSlotHolds(t: LocalStamp, bin: Positive)
    ensures HeatSlot(t, bin) * bin <= MinuteOfDay(t) - Origin < (HeatSlot(t, bin) + 1) * bin
  {
  }

  /** One increment of `success[wd][slot]` and `total[wd][slot]`. */
  datatype Hit = Hit(weekday: Weekday, slot: nat, success: bool)

  /**
   * The cell a row is counted in, if any: a row with a timestamp, a positive
   * `total`, a time inside the window and a column inside the table is
   * counted in its weekday's row and its column, as a success when a
   * connector was free.
   */
  function HeatEntry(x: Option<RawSample>, b: Binning): (h: Option<Hit>)
    ensures h.Some? <==>
      && x.Some? && x.value.total > 0
      && b.windowStart <= MinuteOfDay(x.value.stamp) < b.windowEnd
      && 0 <= HeatSlot(x.value.stamp, b.binMinutes) < SlotsPerDay(b.binMinutes)
    ensures h.Some? ==>
      h.value == Hit(x.value.stamp.weekday, HeatSlot(x.value.stamp, b.binMinutes), x.value.available >= 1)
  {
    match x
    case None => None
    case Some(sample) =>
      if sample.total <= 0 then None
      else if !(b.windowStart <= MinuteOfDay(sample.stamp) < b.windowEnd) then None
      else
        var slot := HeatSlot(sample.stamp, b.binMinutes);
        if slot < 0 || slot >= SlotsPerDay(b.binMinutes) then None
        else Some(Hit(sample.stamp.weekday, slot, sample.available >= 1))
  }

  /** `grid[wd][slot]` pairs `total` (as `n`) with `success` (as `ok`). */
  predicate Shaped(grid: seq<seq<Cell>>, slots: nat) {
    |grid| == 7 && forall wd | 0 <= wd < 7 :: |grid[wd]| == slots
  }

  function EmptyGrid(slots: nat): (grid: seq<seq<Cell>>)
    ensures Shaped(grid, slots)
    ensures forall wd, s | 0 <= wd < 7 && 0 <= s < slots :: grid[wd][s] == Cell(0, 0)
  {
    seq(7, _ => seq(slots, _ => Cell(0, 0)))
  }

  function Bump(grid: seq<seq<Cell>>, slots: nat, h: Hit): (g: seq<seq<Cell>>)
    requires Shaped(grid, slots) && h.slot < slots
    ensures Shaped(g, slots)
    ensures forall wd, s | 0 <= wd < 7 && 0 <= s < slots ::
      g[wd][s] == if wd == h.weekday && s == h.slot
        then Cell(grid[wd][s].n + 1, grid[wd][s].ok + (if h.success then 1 else 0))
        else grid[wd][s]
  {
    var c := grid[h.weekday][h.slot];
    grid[h.weekday := grid[h.weekday][h.slot := Cell(c.n + 1, c.ok + (if h.success then 1 else 0))]]
  }

  /** The counters and the table after reading the rows. */
  datatype Scan = Scan(rowsTotal: nat, rowsParsed: nat, grid: seq<seq<Cell>>)

  function ScanRows(read: seq<Option<RawSample>>, b: Binning): (sc: Scan)
    ensures Shaped(sc.grid, SlotsPerDay(b.binMinutes))
    ensures sc.rowsTotal == |read| && sc.rowsParsed <= sc.rowsTotal
  {
    if read == [] then Scan(0, 0, EmptyGrid(SlotsPerDay(b.binMinutes)))
    else
      var sc := ScanRows(read[..|read| - 1], b);
      var x := read[|read| - 1];
      var parsed := sc.rowsParsed + if x.Some? then 1 else 0;
      match HeatEntry(x, b)
      case None => Scan(sc.rowsTotal + 1, parsed, sc.grid)
      case Some(h) => Scan(sc.rowsTotal + 1, parsed, Bump(sc.grid, SlotsPerDay(b.binMinutes), h))
  }

  /**
   * `rows_total` counts every row and `rows_parsed` every row whose
   * timestamp was read, whether or not it then passes the filters.
   */
  lemma {:induction false} ScanCounters(read: seq<Option<RawSample>>, b: Binning)
    ensures ScanRows(read, b).rowsTotal == |read|
    ensures ScanRows(read, b).rowsParsed == |read| - multiset(read)[None]
  {
    if read != [] {
      var front := read[..|read| - 1];
      ScanCounters(front, b);
      assert read == front + [read[|read| - 1]];
    }
  }

  /** What each row contributes: an independent, per-row view of the scan. */
  function Entries(read: seq<Option<RawSample>>, b: Binning): (es: seq<Option<Hit>>)
    ensures |es| == |read|
  {
    seq(|read|, j requires 0 <= j < |read| => HeatEntry(read[j], b))
  }

  /** How many rows land in cell (wd, s) with the given outcome. */
  function Tally(read: seq<Option<RawSample>>, b: Binning, wd: Weekday, s: nat, success: bool): nat {
    multiset(Entries(read, b))[Some(Hit(wd, s, success))]
  }

  lemma TallySnoc(front: seq<Option<RawSample>>, x: Option<RawSample>, b: Binning, wd: Weekday, s: nat, success: bool)
    ensures Tally(front + [x], b, wd, s, success) ==
      Tally(front, b, wd, s, success) + if HeatEntry(x, b) == Some(Hit(wd, s, success)) then 1 else 0
  {
    assert Entries(front + [x], b) == Entries(front, b) + [HeatEntry(x, b)];
  }

  /**
   * Each cell of the table holds the number of rows counted in it and, of
   * those, the number that saw a free connector.
   */
  lemma {:induction false} ScanCell(read: seq<Option<RawSample>>, b: Binning, wd: Weekday, s: nat)
    requires s < SlotsPerDay(b.binMinutes)
    ensures ScanRows(read, b).grid[wd][s] ==
      Cell(Tally(read, b, wd, s, true) + Tally(read, b, wd, s, false), Tally(read, b, wd, s, true))
  {
    if read == [] {
      assert Entries(read, b) == [];
    } else {
      var front := read[..|read| - 1];
      var x := read[|read| - 1];
      ScanCell(front, b, wd, s);
      assert read == front + [x];
      TallySnoc(front, x, b, wd, s, true);
      TallySnoc(front, x, b, wd, s, false);
    }
  }

  /** Every cell has at least as many measures as successes. */
  lemma CellConsistent(read: seq<Option<RawSample>>, b: Binning, wd: Weekday, s: nat)
    requires s < SlotsPerDay(b.binMinutes)
    ensures ScanRows(read, b).grid[wd][s].ok <= ScanRows(read, b).grid[wd][s].n
  {
    ScanCell(read, b, wd, s);
  }

  /** The matrix `M`: Monday to Saturday, a probability where the cell has measures. */
  function Matrix(grid: seq<seq<Cell>>, slots: nat): (m: seq<seq<Option<real>>>)
    requires Shaped(grid, slots)
    ensures |m| == 6 && forall wd | 0 <= wd < 6 :: |m[wd]| == slots
    ensures forall wd, s | 0 <= wd < 6 && 0 <= s < slots :: m[wd][s].Some? <==> grid[wd][s].n > 0
    ensures forall wd, s | 0 <= wd < 6 && 0 <= s < slots && m[wd][s].Some? ::
      m[wd][s].value * grid[wd][s].n as real == grid[wd][s].ok as real
  {
    seq(6, wd requires 0 <= wd < 6 =>
      seq(slots, s requires 0 <= s < slots =>
        if grid[wd][s].n > 0 then Some(Prob(grid[wd][s])) else None))
  }

  /** `np.all(np.isnan(M))`. */
  predicate AllUndefined(m: seq<seq<Option<real>>>) {
    forall wd, s | 0 <= wd < |m| && 0 <= s < |m[wd]| :: m[wd][s].None?
  }

  datatype Outcome =
    | NoUsableData(rowsTotal: nat, rowsParsed: nat)
    | Rendered(m: seq<seq<Option<real>>>, rowsTotal: nat, rowsParsed: nat)

  function HeatmapOf(read: seq<Option<RawSample>>, b: Binning): (o: Outcome)
    ensures o.rowsTotal == ScanRows(read, b).rowsTotal && o.rowsParsed == ScanRows(read, b).rowsParsed
    ensures o.NoUsableData? <==> AllUndefined(Matrix(ScanRows(read, b).grid, SlotsPerDay(b.binMinutes)))
    ensures o.Rendered? ==> o.m == Matrix(ScanRows(read, b).grid, SlotsPerDay(b.binMinutes))
  {
    var sc := ScanRows(read, b);
    var m := Matrix(sc.grid, SlotsPerDay(b.binMinutes));
    if AllUndefined(m) then NoUsableData(sc.rowsTotal, sc.rowsParsed)
    else Rendered(m, sc.rowsTotal, sc.rowsParsed)
  }

  /** Every probability drawn lies between 0 and 1. */
  lemma MatrixBounded(read: seq<Option<RawSample>>, b: Binning)
    ensures var o := HeatmapOf(read, b);
      o.Rendered? ==>
        forall wd, s | 0 <= wd < |o.m| && 0 <= s < |o.m[wd]| && o.m[wd][s].Some? ::
          0.0 <= o.m[wd][s].value <= 1.0
  {
    var sc := ScanRows(read, b);
    var slots := SlotsPerDay(b.binMinutes);
    var m: seq<seq<Option<real>>> := Matrix(sc.grid, slots);
    forall wd: int, s: int | 0 <= wd < 6 && 0 <= s < slots && m[wd][s].Some?
      ensures 0.0 <= m[wd][s].value <= 1.0
    {
      CellConsistent(read, b, wd, s);
      assert m[wd][s].value == Prob(sc.grid[wd][s]);
    }
  }

  /** A row counted on a day from Monday to Saturday. */
  predicate CountedOnWeekday(e: Option<Hit>) {
    e.Some? && e.value.weekday < 6
  }

  /**
   * The "no usable data" picture is drawn exactly when no row is counted on
   * a day from Monday to Saturday: Sunday rows never show.
   */
  lemma NoUsableDataIff(read: seq<Option<RawSample>>, b: Binning)
    ensures HeatmapOf(read, b).NoUsableData? <==>
      forall j | 0 <= j < |read| :: !CountedOnWeekday(HeatEntry(read[j], b))
  {
    var m := Matrix(ScanRows(read, b).grid, SlotsPerDay(b.binMinutes));
    if AllUndefined(m) {
      forall j | 0 <= j < |read|
        ensures !CountedOnWeekday(HeatEntry(read[j], b))
      {
        if CountedOnWeekday(HeatEntry(read[j], b)) {
          CountedMeansDefined(read, b, j);
        }
      }
    } else {
      DefinedMeansCounted(read, b);
    }
  }

  /** A row counted from Monday to Saturday makes its cell of the matrix defined. */
  lemma CountedMeansDefined(read: seq<Option<RawSample>>, b: Binning, j: nat)
    requires j < |read| && CountedOnWeekday(HeatEntry(read[j], b))
    ensures var h := HeatEntry(read[j], b).value;
      Matrix(ScanRows(read, b).grid, SlotsPerDay(b.binMinutes))[h.weekday][h.slot].Some?
  {
    var h := HeatEntry(read[j], b).value;
    var es := Entries(read, b);
    ScanCell(read, b, h.weekday, h.slot);
    assert es[j] == Some(h);
    assert Some(h) in multiset(es);
  }

  lemma DefinedMeansCounted(read: seq<Option<RawSample>>, b: Binning)
    requires !AllUndefined(Matrix(ScanRows(read, b).grid, SlotsPerDay(b.binMinutes)))
    ensures exists j | 0 <= j < |read| :: CountedOnWeekday(HeatEntry(read[j], b))
  {
    var sc := ScanRows(read, b);
    var m: seq<seq<Option<real>>> := Matrix(sc.grid, SlotsPerDay(b.binMinutes));
    var es := Entries(read, b);
    var wd, s :| 0 <= wd < |m| && 0 <= s < |m[wd]| && m[wd][s].Some?;
    assert sc.grid[wd][s].n > 0;
    ScanCell(read, b, wd, s);
    var success := Tally(read, b, wd, s, true) > 0;
    assert Some(Hit(wd, s, success)) in multiset(es);
    var j :| 0 <= j < |es| && es[j] == Some(Hit(wd, s, success));
    assert CountedOnWeekday(HeatEntry(read[j], b));
  }

  lemma MulMono(a: int, c: int, k: Positive)
    ensures a <= c <==> a * k <= c * k
  {
    assert c * k - a * k == (c - a) * k;
    if a <= c {
      assert (c - a) * k >= 0;
    } else {
      assert (a - c) * k > 0;
    }
  }

  /**
   * When the window lies inside 09:00-17:00 and the bin width divides the
   * eight hours, the bounds check never turns away a row that passed the
   * window test.
   */
  lemma BoundsCheckNeverRejects(x: Option<RawSample>, b: Binning)
    requires Origin <= b.windowStart && b.windowEnd <= Origin + 480 && 480 % b.binMinutes == 0
    ensures HeatEntry(x, b).Some? <==>
      x.Some? && x.value.total > 0 && b.windowStart <= MinuteOfDay(x.value.stamp) < b.windowEnd
  {
    if x.Some? && x.value.total > 0 && b.windowStart <= MinuteOfDay(x.value.stamp) < b.windowEnd {
      var bin := b.binMinutes;
      var slot := HeatSlot(x.value.stamp, bin);
      var slots := SlotsPerDay(bin);
      HeatSlotHolds(x.value.stamp, bin);
      assert slots * bin == 480;
      MulMono(slots, slot, bin);
      MulMono(0, slot + 1, bin);
      assert 0 <= slot < slots;
    }
  }

  /**
   * With a bin width that does not divide the eight hours, the last, partial
   * column is dropped: at 7 minutes a bin, a row at 16:59 falls in column 68,
   * one past the last of the 68 columns.
   */
  lemma PartialColumnDropped()
    ensures var b := Binning(Origin, Origin + 480, 7);
      var x := Some(RawSample(LocalStamp(0, 16, 59, 0, 0), 1, 1));
      && SlotsPerDay(7) == 68
      && HeatSlot(x.value.stamp, 7) == 68
      && HeatEntry(x, b).None?
  {
  }

  /** An x-axis tick: a column and the whole hour it is labelled with. */
  datatype Tick = Tick(col: nat, hour: nat)

  /** The ticks from column `col` on: the columns that start on a whole hour. */
  function TicksFrom(col: nat, bin: Positive): (ticks: seq<Tick>)
    ensures forall k | 0 <= k < |ticks| ::
      && col <= ticks[k].col < SlotsPerDay(bin)
      && (ticks[k].col * bin) % 60 == 0
      && ticks[k].hour == 9 + (ticks[k].col * bin) / 60
    ensures forall k, l | 0 <= k < l < |ticks| :: ticks[k].col < ticks[l].col
    decreases SlotsPerDay(bin) - col
  {
    if col >= SlotsPerDay(bin) then []
    else
      var minutes := col * bin;
      var rest := TicksFrom(col + 1, bin);
      if minutes % 60 == 0 then [Tick(col, 9 + minutes / 60)] + rest else rest
  }

  /** The x-axis ticks: whole-hour columns, labelled from 09:00 to 16:00 at the latest. */
  function HourTicks(bin: Positive): (ticks: seq<Tick>)
    ensures forall k | 0 <= k < |ticks| :: 9 <= ticks[k].hour <= 16 && (ticks[k].col * bin) % 60 == 0
  {
    var ticks := TicksFrom(0, bin);
    assert forall k | 0 <= k < |ticks| :: ticks[k].hour <= 16 by {
      forall k | 0 <= k < |ticks|
        ensures ticks[k].hour <= 16
      {
        TickBeforeSeventeen(ticks[k].col, bin);
      }
    }
    ticks
  }

  /** Every column that starts on a whole hour gets its tick. */
  lemma {:induction false} TicksComplete(col: nat, bin: Positive, c: nat)
    requires col <= c < SlotsPerDay(bin) && (c * bin) % 60 == 0
    ensures Tick(c, 9 + (c * bin) / 60) in TicksFrom(col, bin)
    decreases c - col
  {
    if col < c {
      TicksComplete(col + 1, bin, c);
    }
  }

  /**
   * No tick is labelled later than 16:00, whatever the bin width: the last
   * column starts before 17:00. At 15 minutes a bin, column 28 is labelled
   * 16:00.
   */
  lemma TicksStopBeforeSeventeen(bin: Positive)
    ensures forall k | 0 <= k < |HourTicks(bin)| :: HourTicks(bin)[k].hour <= 16
    ensures bin == 15 ==> Tick(28, 16) in HourTicks(bin)
  {
    if bin == 15 {
      assert SlotsPerDay(15) == 32;
      TicksComplete(0, 15, 28);
    }
  }

  lemma TickBeforeSeventeen(c: nat, bin: Positive)
    requires c < SlotsPerDay(bin)
    ensures 9 + (c * bin) / 60 <= 16
  {
    SlotsPerDayCover(bin);
    MulMono(c + 1, SlotsPerDay(bin), bin);
    assert c * bin < 480;
  }

  /** `f"{hh:02d}:00"` for the hours the ticks use. */
  function Label(hour: nat): (tag: string)
    requires hour < 100
    ensures |tag| == 5 && tag[2..] == ":00"
    ensures ParseInt(tag[..2]) == Some(hour)
  {
    var ds := [DigitChar(hour / 10), DigitChar(hour % 10)];
    var tag := ds + ":00";
    assert tag[..2] == ds;
    assert ds[..1] == [DigitChar(hour / 10)];
    assert [DigitChar(hour / 10)][..0] == [];
    assert DigitsValue(ds[..1]) == hour / 10;
    assert DigitsValue(ds) == (hour / 10) * 10 + hour % 10;
    tag
  }
}
