/**
 * Local wall-clock time as the scripts see it after converting a sample's
 * instant to Europe/Paris, and the configuration both reports share.
 */
module Clock {

  type Weekday = d: int | 0 <= d < 7       // 0 is Monday, as datetime.weekday()
  type Hour = h: int | 0 <= h < 24
  type Minute = m: int | 0 <= m < 60
  type Second = s: int | 0 <= s < 60
  type Micro = u: int | 0 <= u < 1_000_000
  type Positive = n: int | n > 0 witness 1

  /** A localised timestamp, reduced to the fields the reports read. */
  datatype LocalStamp = LocalStamp(weekday: Weekday, hour: Hour, minute: Minute, second: Second, micro: Micro)

  /**
   * The shared analysis parameters: the half-open window of local time, as
   * minutes after midnight (`START_LOCAL`, `END_LOCAL`), and the bin width
   * (`BIN_MINUTES`).
   */
  datatype Binning = Binning(windowStart: int, windowEnd: int, binMinutes: Positive)

  /** The values both scripts hard-code: 09:00 to 17:00 in 15-minute bins. */
  const DefaultBinning := Binning(9 * 60, 17 * 60, 15)

  function MinuteOfDay(t: LocalStamp): (m: int)
    ensures 0 <= m < 24 * 60
  {
    t.hour * 60 + t.minute
  }

  /** `ts_local.time()` in microseconds after midnight. */
  function MicroOfDay(t: LocalStamp): int {
    (MinuteOfDay(t) * 60 + t.second) * 1_000_000 + t.micro
  }

  /**
   * `START_LOCAL <= ts_local.time() < END_LOCAL`, with both bounds whole
   * minutes as `time(h, m)` builds them.
   */
  predicate InWindow(t: LocalStamp, b: Binning) {
    b.windowStart * 60_000_000 <= MicroOfDay(t) < b.windowEnd * 60_000_000
  }

  /** Seconds and microseconds never decide the window test: only the minute of the day does. */
  lemma InWindowByMinute(t: LocalStamp, b: Binning)
    ensures InWindow(t, b) <==> b.windowStart <= MinuteOfDay(t) < b.windowEnd
  {
  }

  /**
   * `(minute // BIN_MINUTES) * BIN_MINUTES`: the start of the bin holding
   * `minute`, in the same hour.
   */
  function BinMinute(minute: Minute, bin: Positive): (m: Minute)
    ensures m <= minute < m + bin
    ensures m % bin == 0
  {
    DivMulBounds(minute, bin);
    (minute / bin) * bin
  }

  lemma DivMulBounds(x: nat, d: Positive)
    ensures 0 <= (x / d) * d <= x < (x / d) * d + d
    ensures ((x / d) * d) % d == 0
  {
  }
}
