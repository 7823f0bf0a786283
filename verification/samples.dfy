/**
 * Reading a CSV row into a raw sample, and the filter-and-bin step that
 * `recommend_week.py` applies to it before aggregating.
 */
module Samples {
  import opened Wrappers
  import opened Seqs
  import opened Rows
  import opened Clock

  /**
   * The library work the model leaves out: rewriting a trailing `Z`, ISO-8601
   * parsing, reading a naive instant as UTC and converting to Europe/Paris.
   * `None` stands for a string `datetime.fromisoformat` rejects.
   */
  type Localiser = string -> Option<LocalStamp>

  /** The row's local timestamp, or `None` when the row is skipped before its counts are read. */
  function Stamp(row: Row, localise: Localiser): (t: Option<LocalStamp>)
    ensures t.Some? ==> TimestampOf(row).Some? && TimestampOf(row).value != ""
    ensures TimestampOf(row).Some? && TimestampOf(row).value != "" ==> t == localise(TimestampOf(row).value)
  {
    var ts := TimestampOf(row);
    if ts.None? || ts.value == "" then None else localise(ts.value)
  }

  /** A row whose timestamp parsed, with its two counts read leniently. */
  datatype RawSample = RawSample(stamp: LocalStamp, available: int, total: int)

  /**
   * What both scripts know about a row once its timestamp has been tried and
   * `available`/`total` read: `None` when the row has no usable timestamp.
   */
  function ReadRow(row: Row, localise: Localiser): (s: Option<RawSample>)
    ensures s.Some? <==> Stamp(row, localise).Some?
    ensures s.Some? ==> s.value.stamp == Stamp(row, localise).value
    ensures s.Some? ==> s.value.available == ToIntOrZero(Lookup(row, "available"))
    ensures s.Some? ==> s.value.total == ToIntOrZero(Lookup(row, "total"))
  {
    match Stamp(row, localise)
    case None => None
    case Some(t) => Some(RawSample(t, ToIntOrZero(Lookup(row, "available")), ToIntOrZero(Lookup(row, "total"))))
  }

  /** Every row of the file read in order. */
  function ReadRows(rows: seq<Row>, localise: Localiser): (read: seq<Option<RawSample>>)
    ensures |read| == |rows|
  {
    if rows == [] then [] else ReadRows(rows[..|rows| - 1], localise) + [ReadRow(rows[|rows| - 1], localise)]
  }

  lemma {:induction false} ReadRowsAt(rows: seq<Row>, localise: Localiser, i: nat)
    requires i < |rows|
    ensures ReadRows(rows, localise)[i] == ReadRow(rows[i], localise)
  {
    if i < |rows| - 1 {
      ReadRowsAt(rows[..|rows| - 1], localise, i);
    }
  }

  /** The per-day bin key `(hour, minute_bin)` of `recommend_week.py`. */
  datatype Slot = Slot(hour: Hour, minute: Minute)

  /** One kept row: `(weekday, hour, minute_bin, available)`. */
  datatype Record = Record(weekday: Weekday, slot: Slot, available: int)

  /**
   * The `total <= 0` filter, the window filter and the binning of
   * `recommend_week.py` for one read row: `None` when the row is skipped.
   */
  function Normalise(s: Option<RawSample>, b: Binning): (r: Option<Record>)
    ensures r.Some? <==> s.Some? && s.value.total > 0 && b.windowStart <= MinuteOfDay(s.value.stamp) < b.windowEnd
    ensures r.Some? ==>
      && r.value.weekday == s.value.stamp.weekday
      && r.value.slot.hour == s.value.stamp.hour
      && r.value.available == s.value.available
  {
    match s
    case None => None
    case Some(x) =>
      InWindowByMinute(x.stamp, b);
      if x.total <= 0 then None
      else if !InWindow(x.stamp, b) then None
      else Some(Record(x.stamp.weekday, Slot(x.stamp.hour, BinMinute(x.stamp.minute, b.binMinutes)), x.available))
  }

  /**
   * Where a kept row lands: its bin starts at a multiple of the bin width
   * and holds the row's minute.
   */
  lemma NormaliseBin(s: Option<RawSample>, b: Binning)
    requires Normalise(s, b).Some?
    ensures var slot := Normalise(s, b).value.slot;
      && slot.minute <= s.value.stamp.minute < slot.minute + b.binMinutes
      && slot.minute % b.binMinutes == 0
  {
  }

  /** `r` is the record of one of the rows. */
  predicate FromSomeRow(r: Record, read: seq<Option<RawSample>>, b: Binning) {
    exists j | 0 <= j < |read| :: Normalise(read[j], b) == Some(r)
  }

  /** No row passes the filters. */
  predicate NoRecord(read: seq<Option<RawSample>>, b: Binning) {
    forall j | 0 <= j < |read| :: Normalise(read[j], b).None?
  }

  /** The `records` list: every read row in order, skipped rows left out. */
  function Records(read: seq<Option<RawSample>>, b: Binning): (rs: seq<Record>)
    ensures |rs| <= |read|
    ensures forall i | 0 <= i < |rs| :: FromSomeRow(rs[i], read, b)
    ensures rs == [] <==> NoRecord(read, b)
  {
    if read == [] then []
    else
      var prefix := read[..|read| - 1];
      var rs := Records(prefix, b);
      assert forall j | 0 <= j < |prefix| :: prefix[j] == read[j];
      match Normalise(read[|read| - 1], b)
      case None => rs
      case Some(r) => rs + [r]
  }

  /** One more row adds its record, if it has one, at the end. */
  lemma RecordsSnoc(read: seq<Option<RawSample>>, x: Option<RawSample>, b: Binning)
    ensures Records(read + [x], b) ==
      Records(read, b) + if Normalise(x, b).Some? then [Normalise(x, b).value] else []
  {
    assert (read + [x])[..|read|] == read;
  }

  /** Filtering and binning treat each row on its own. */
  lemma {:induction false} RecordsAppend(a: seq<Option<RawSample>>, c: seq<Option<RawSample>>, b: Binning)
    ensures Records(a + c, b) == Records(a, b) + Records(c, b)
    decreases |c|
  {
    if c == [] {
      assert a + c == a;
    } else {
      var c' := c[..|c| - 1];
      var x := c[|c| - 1];
      assert c == c' + [x];
      assert a + c == (a + c') + [x];
      RecordsAppend(a, c', b);
      RecordsSnoc(a + c', x, b);
      RecordsSnoc(c', x, b);
      AppendAssoc(Records(a, b), Records(c', b), if Normalise(x, b).Some? then [Normalise(x, b).value] else []);
    }
  }

  /** Reordering the rows of the file reorders the records and nothing more. */
  lemma {:induction false} RecordsPermutation(a: seq<Option<RawSample>>, c: seq<Option<RawSample>>, b: Binning)
    requires multiset(a) == multiset(c)
    ensures multiset(Records(a, b)) == multiset(Records(c, b))
    decreases |a|
  {
    if a == [] {
      assert |c| == |multiset(c)| == 0;
    } else {
      var x := a[|a| - 1];
      var a' := a[..|a| - 1];
      assert a == a' + [x];
      var j := PickOut(a, c);
      var c' := c[..j] + c[j + 1..];
      RecordsPermutation(a', c', b);
      RecordsAppend(a', [x], b);
      RecordsAppend(c[..j], [x], b);
      RecordsAppend(c[..j] + [x], c[j + 1..], b);
      RecordsAppend(c[..j], c[j + 1..], b);
    }
  }
}
