/** `checkDate`: whether the signature update is recent enough. Times are
    integers: Unix seconds for the stored timestamp and for the zone
    offset, nanoseconds for the clock and for `time.Duration`. */
module Freshness {

  const NanosPerSecond: int := 1_000_000_000
  const SecondsPerHour: int := 3600

  /** The bounds of Go's `time.Duration`, an `int64` count of nanoseconds. */
  const MinDuration: int := -0x8000_0000_0000_0000
  const MaxDuration: int := 0x7fff_ffff_ffff_ffff

  /** `time.Hour * maxUpdateTime` with `maxUpdateTime = time.Duration(2)`. */
  const MaxStaleness: int := 2 * SecondsPerHour * NanosPerSecond

  predicate IsDuration(d: int) {
    MinDuration <= d <= MaxDuration
  }

  function Abs(x: int): nat {
    if x < 0 then -x else x
  }

  /** `time.Time.Sub`: the difference in nanoseconds, clamped to the
      `Duration` range when it overflows, that is, the `Duration` nearest
      to the true difference. */
  function Sub(tNanos: int, uNanos: int): (d: int)
    ensures IsDuration(d)
    ensures forall x :: IsDuration(x) ==> Abs(d - (tNanos - uNanos)) <= Abs(x - (tNanos - uNanos))
    ensures IsDuration(tNanos - uNanos) ==> d == tNanos - uNanos
    ensures tNanos - uNanos < MinDuration ==> d == MinDuration
    ensures tNanos - uNanos > MaxDuration ==> d == MaxDuration
  {
    var diff := tNanos - uNanos;
    if diff < MinDuration then MinDuration
    else if diff > MaxDuration then MaxDuration
    else diff
  }

  /** The instant `checkDate` compares against, in Unix seconds: the stored
      value read as a Unix time, then moved back by the local zone's UTC
      offset at that instant. */
  function UpdateInstant(lastUpdate: int, zoneOffset: int -> int): int {
    lastUpdate - zoneOffset(lastUpdate)
  }

  /** `checkDate(lastUpdate, d)`: `time.Since(updateTime) < d`, where
      `nowNanos` is the clock reading and `zoneOffset(t)` is what `Zone()`
      reports for the Unix second `t`. The verdict is exactly "the elapsed
      time is strictly below `d`": the clamping of `Sub` never changes it,
      except for the most negative `d`, which no elapsed time can be below
      once clamped. */
  function CheckDate(lastUpdate: int, d: int, nowNanos: int, zoneOffset: int -> int): (r: bool)
    requires IsDuration(d)
    ensures d > MinDuration ==> (r <==> nowNanos - UpdateInstant(lastUpdate, zoneOffset) * NanosPerSecond < d)
    ensures d == MinDuration ==> !r
  {
    var offset := zoneOffset(lastUpdate);
    var updateNanos := (lastUpdate - offset) * NanosPerSecond;
    assert updateNanos == UpdateInstant(lastUpdate, zoneOffset) * NanosPerSecond;
    Sub(nowNanos, updateNanos) < d
  }

  /** Exactly `d` of elapsed time is already stale. */
  lemma CheckDateBoundary(lastUpdate: int, d: int, zoneOffset: int -> int)
    requires IsDuration(d) && d > MinDuration
    ensures !CheckDate(lastUpdate, d, UpdateInstant(lastUpdate, zoneOffset) * NanosPerSecond + d, zoneOffset)
    ensures d > 0 ==> CheckDate(lastUpdate, d, UpdateInstant(lastUpdate, zoneOffset) * NanosPerSecond + d - 1, zoneOffset)
  {
  }

  /** For a fixed zone offset, a later update or a longer window never turns
      "up to date" into "stale", and a later clock never turns "stale" into
      "up to date". */
  lemma CheckDateMonotone(lu1: int, lu2: int, d1: int, d2: int, now1: int, now2: int, zoneOffset: int -> int)
    requires IsDuration(d1) && IsDuration(d2) && d1 > MinDuration
    requires lu1 <= lu2 && d1 <= d2 && now2 <= now1
    requires zoneOffset(lu1) == zoneOffset(lu2)
    ensures CheckDate(lu1, d1, now1, zoneOffset) ==> CheckDate(lu2, d2, now2, zoneOffset)
  {
  }

  /** Because the offset is taken at the stored instant, the verdict is not
      monotone across a change of offset: with the offset rising from 0 to
      one hour at second 1000, an update stored at second 999 is fresh while
      one stored at second 1000 is already stale. */
  lemma CheckDateAcrossOffsetChange()
    ensures var zone := (t: int) => if t >= 1000 then SecondsPerHour else 0;
            var now := (999 + 7000) * NanosPerSecond;
            CheckDate(999, MaxStaleness, now, zone) && !CheckDate(1000, MaxStaleness, now, zone)
  {
  }

  /** An update at the clock's own (offset-corrected) second is fresh under
      the two-hour window, and one thirty days old is stale under any window
      shorter than thirty days. */
  lemma CheckDateExamples(lastUpdate: int, d: int, zoneOffset: int -> int)
    requires IsDuration(d) && d > MinDuration && d < 30 * 24 * SecondsPerHour * NanosPerSecond
    ensures CheckDate(lastUpdate, MaxStaleness, UpdateInstant(lastUpdate, zoneOffset) * NanosPerSecond, zoneOffset)
    ensures !CheckDate(lastUpdate, d, (UpdateInstant(lastUpdate, zoneOffset) + 30 * 24 * SecondsPerHour) * NanosPerSecond, zoneOffset)
  {
  }
}
