/**
 * `formatRelativeTime`: an age in whole seconds rendered with the first
 * unit of a fixed table whose limit exceeds it, falling back to years.
 * The clock is left out: the input is the difference in seconds already
 * taken, or an invalid date.
 */
module RelativeTime {
  import opened StringOps

  datatype TimeUnit = TimeUnit(limit: int, divisor: nat, suffix: string)

  /** `timeUnits`. */
  const TimeUnits: seq<TimeUnit> := [
    TimeUnit(60, 1, "s"),
    TimeUnit(3600, 60, "m"),
    TimeUnit(86400, 3600, "h"),
    TimeUnit(2592000, 86400, "d"),
    TimeUnit(31536000, 2592000, "mo")
  ]

  const SecondsPerYear: nat := 31536000

  predicate PositiveDivisors(units: seq<TimeUnit>) {
    forall i :: 0 <= i < |units| ==> units[i].divisor > 0
  }

  /** Each limit is larger than the one before. */
  predicate IncreasingLimits(units: seq<TimeUnit>) {
    forall i, j :: 0 <= i < j < |units| ==> units[i].limit < units[j].limit
  }

  /** A count and its unit suffix. */
  datatype Reading = Reading(count: int, suffix: string)

  /**
   * The loop over the table: the first unit whose limit exceeds `diff`, or
   * years. `/` is floor division here, as `Math.floor` of the quotient is
   * for a positive divisor.
   */
  function Bucket(diff: int, units: seq<TimeUnit>): Reading
    requires PositiveDivisors(units)
  {
    if |units| == 0 then Reading(diff / SecondsPerYear, "y")
    else if diff < units[0].limit then Reading(diff / units[0].divisor, units[0].suffix)
    else Bucket(diff, units[1..])
  }

  /** The unit chosen is the first one whose limit exceeds `diff`. */
  lemma {:induction false} BucketFirstFit(diff: int, units: seq<TimeUnit>, i: nat)
    requires PositiveDivisors(units)
    requires i < |units| && diff < units[i].limit
    requires forall j :: 0 <= j < i ==> units[j].limit <= diff
    ensures Bucket(diff, units) == Reading(diff / units[i].divisor, units[i].suffix)
  {
    if i > 0 {
      BucketFirstFit(diff, units[1..], i - 1);
    }
  }

  /** With increasing limits, the unit chosen is the one whose range [previous limit, limit) holds `diff`. */
  lemma BucketInRange(diff: int, units: seq<TimeUnit>, i: nat)
    requires PositiveDivisors(units) && IncreasingLimits(units)
    requires i < |units| && diff < units[i].limit && (i > 0 ==> units[i - 1].limit <= diff)
    ensures Bucket(diff, units) == Reading(diff / units[i].divisor, units[i].suffix)
  {
    BucketFirstFit(diff, units, i);
  }

  /** Past every limit, the count is in years. */
  lemma {:induction false} BucketPastTable(diff: int, units: seq<TimeUnit>)
    requires PositiveDivisors(units)
    requires forall j :: 0 <= j < |units| ==> units[j].limit <= diff
    ensures Bucket(diff, units) == Reading(diff / SecondsPerYear, "y")
  {
    if |units| > 0 {
      BucketPastTable(diff, units[1..]);
    }
  }

  /** The branches `formatRelativeTime` produces, and the ranges their counts fall in. */
  lemma TimeUnitsBuckets(diff: int)
    ensures PositiveDivisors(TimeUnits) && IncreasingLimits(TimeUnits)
    ensures diff < 60 ==> Bucket(diff, TimeUnits) == Reading(diff, "s")
    ensures 60 <= diff < 3600 ==> Bucket(diff, TimeUnits) == Reading(diff / 60, "m") && 1 <= diff / 60 <= 59
    ensures 3600 <= diff < 86400 ==> Bucket(diff, TimeUnits) == Reading(diff / 3600, "h") && 1 <= diff / 3600 <= 23
    ensures 86400 <= diff < 2592000 ==> Bucket(diff, TimeUnits) == Reading(diff / 86400, "d") && 1 <= diff / 86400 <= 29
    ensures 2592000 <= diff < 31536000 ==>
              Bucket(diff, TimeUnits) == Reading(diff / 2592000, "mo") && 1 <= diff / 2592000 <= 12
    ensures diff >= 31536000 ==> Bucket(diff, TimeUnits) == Reading(diff / SecondsPerYear, "y") && diff / SecondsPerYear >= 1
  {
    var u := TimeUnits;
    if diff < 60 {
      BucketFirstFit(diff, u, 0);
    } else if diff < 3600 {
      BucketFirstFit(diff, u, 1);
    } else if diff < 86400 {
      BucketFirstFit(diff, u, 2);
    } else if diff < 2592000 {
      BucketFirstFit(diff, u, 3);
    } else if diff < 31536000 {
      BucketFirstFit(diff, u, 4);
    } else {
      BucketPastTable(diff, u);
    }
  }

  /** A date in the future gives a negative count of seconds. */
  lemma FutureIsNegativeSeconds(diff: int)
    requires diff < 0
    ensures Bucket(diff, TimeUnits) == Reading(diff, "s") && Bucket(diff, TimeUnits).count < 0
  {
    TimeUnitsBuckets(diff);
  }

  /** The age in seconds, or an unparseable date (its time is NaN, which no limit exceeds). */
  datatype Age = Seconds(diff: int) | InvalidDate

  /** `formatRelativeTime`. */
  function FormatRelativeTime(age: Age): (r: string)
    ensures EndsWith(r, " ago")
    ensures age.InvalidDate? ==> r == "NaNy ago"
    ensures age.Seconds? && age.diff < 60 ==> r == IntToString(age.diff) + "s ago"
    ensures age.Seconds? && age.diff >= SecondsPerYear ==> r == IntToString(age.diff / SecondsPerYear) + "y ago"
  {
    if age.InvalidDate? then "NaNy ago"
    else
      TimeUnitsBuckets(age.diff);
      var b := Bucket(age.diff, TimeUnits);
      IntToString(b.count) + b.suffix + " ago"
  }

  /** The text of a future date starts with a minus sign. */
  lemma FutureTextIsNegative(diff: int)
    requires diff < 0
    ensures FormatRelativeTime(Seconds(diff))[0] == '-'
  {
    FutureIsNegativeSeconds(diff);
  }
}
