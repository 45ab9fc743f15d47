/** The step of a monitoring query: pkg/api/customization/monitor/interval.go. All durations are nanoseconds. */
module Interval {
  import opened GoInt

  const MS := 1_000_000
  const SECOND := 1000 * MS
  const MINUTE := 60 * SECOND
  const HOUR := 60 * MINUTE
  const DAY := 24 * HOUR
  const YEAR := 365 * DAY

  const DEFAULT_RES := 1500
  const DEFAULT_MIN_INTERVAL := SECOND

  /** A duration as printed: a count of some unit. */
  datatype Text = Text(count: int, unit: int) {
    function Nanos(): int { count * unit }
  }

  datatype Interval = Interval(text: Text, value: int)

  function FormatDuration(inter: int): Text {
    if inter >= YEAR then Text(inter / YEAR, YEAR)
    else if inter >= DAY then Text(inter / DAY, DAY)
    else if inter >= HOUR then Text(inter / HOUR, HOUR)
    else if inter >= MINUTE then Text(inter / MINUTE, MINUTE)
    else if inter >= SECOND then Text(inter / SECOND, SECOND)
    else if inter >= MS then Text(inter / MS, MS)
    else Text(1, MS)
  }

  function RoundInterval(interval: int): int {
    if interval <= 15 * MS then 10 * MS
    else if interval <= 35 * MS then 20 * MS
    else if interval <= 75 * MS then 50 * MS
    else if interval <= 150 * MS then 100 * MS
    else if interval <= 350 * MS then 200 * MS
    else if interval <= 750 * MS then 500 * MS
    else if interval <= 1500 * MS then 1000 * MS
    else if interval <= 3500 * MS then 2000 * MS
    else if interval <= 7500 * MS then 5000 * MS
    else if interval <= 12500 * MS then 10000 * MS
    else if interval <= 17500 * MS then 15000 * MS
    else if interval <= 25000 * MS then 20000 * MS
    else if interval <= 45000 * MS then 30000 * MS
    else if interval <= 90000 * MS then 60000 * MS
    else if interval <= 210000 * MS then 120000 * MS
    else if interval <= 450000 * MS then 300000 * MS
    else if interval <= 750000 * MS then 600000 * MS
    else if interval <= 1050000 * MS then 900000 * MS
    else if interval <= 1500000 * MS then 1200000 * MS
    else if interval <= 2700000 * MS then 1800000 * MS
    else if interval <= 5400000 * MS then 3600000 * MS
    else if interval <= 9000000 * MS then 7200000 * MS
    else if interval <= 16200000 * MS then 10800000 * MS
    else if interval <= 32400000 * MS then 21600000 * MS
    else if interval <= 86400000 * MS then 43200000 * MS
    else if interval <= 172800000 * MS then 86400000 * MS
    else if interval <= 604800000 * MS then 86400000 * MS
    else if interval <= 1814400000 * MS then 604800000 * MS
    else if interval < 3628800000 * MS then 2592000000 * MS
    else 31536000000 * MS
  }

  /** The step for the 64-bit difference of the range's ends. */
  function Calculate(to: int, from: int, minInterval: int): Interval {
    var interval := TruncDiv(Wrap64(to - from), DEFAULT_RES);
    if interval < minInterval then Interval(FormatDuration(minInterval), minInterval)
    else Interval(FormatDuration(RoundInterval(interval)), RoundInterval(interval))
  }

  /** Rounding keeps the order. */
  lemma RoundMonotone(a: int, b: int)
    requires a <= b
    ensures 10 * MS <= RoundInterval(a) <= RoundInterval(b)
  {
  }

  /** Rounding never takes an interval that a 64-bit range can give below a seventh of itself. */
  lemma RoundRatio(interval: int)
    requires interval * DEFAULT_RES < TWO_POW_63
    ensures interval <= 7 * RoundInterval(interval)
  {
  }

  /** A range of at most `points` full steps and a remainder below a step has that many steps. */
  lemma StepsWithin(range: int, step: int, points: int)
    requires 0 <= range && step > 0 && range < (points + 1) * step
    ensures range / step <= points
  {
    if range / step >= points + 1 {
      MulMonotone(points + 1, range / step, step);
    }
  }

  lemma RoundedSize(range: int, step: int)
    requires 0 <= range && range / DEFAULT_RES <= 7 * step && step >= DEFAULT_RES
    ensures range / step <= 10_500
  {
    StepsWithin(range, step, 10_500);
  }

  /** No query asks for more than 10,500 points, and fewer than 1,500 when the minimum is the step. */
  lemma QuerySizeBound(to: int, from: int, minInterval: int)
    requires 0 <= to - from < TWO_POW_63 && minInterval > 0
    ensures var step := Calculate(to, from, minInterval).value;
            && step > 0
            && (to - from) / step <= 10_500
            && ((to - from) / DEFAULT_RES < minInterval ==> step == minInterval && (to - from) / step < 1_500)
  {
    var interval := (to - from) / DEFAULT_RES;
    WrapExact(to - from);
    if interval < minInterval {
      StepsWithin(to - from, minInterval, 1_499);
    } else {
      RoundRatio(interval);
      RoundMonotone(interval, interval);
      RoundedSize(to - from, RoundInterval(interval));
    }
  }

  /** The bound is reached: a range of 10,500 days is asked for in steps of a day. */
  lemma QuerySizeBoundIsReached()
    ensures var step := Calculate(10_500 * DAY, 0, DEFAULT_MIN_INTERVAL).value;
            step == DAY && 10_500 * DAY / step == 10_500 && 10_500 * DAY < TWO_POW_63
  {
    assert 10_500 * DAY / DEFAULT_RES == 604800000 * MS;
  }

  /** The step for a range that starts at zero. */
  function Step(range: int, minInterval: int): int {
    Calculate(range, 0, minInterval).value
  }

  ghost predicate NeverDecreases(minInterval: int) {
    forall a, b :: 0 <= a <= b < TWO_POW_63 ==> Step(a, minInterval) <= Step(b, minInterval)
  }

  lemma StepIs(range: int, minInterval: int)
    requires 0 <= range < TWO_POW_63
    ensures Step(range, minInterval) == if range / DEFAULT_RES < minInterval then minInterval
            else RoundInterval(range / DEFAULT_RES)
  {
    WrapExact(range);
  }

  /** The step never decreases as the range grows, exactly when rounding the minimum does not take it below itself, or
      no range is long enough for rounding. */
  lemma StepNeverDecreases(minInterval: int)
    requires minInterval > 0
    ensures NeverDecreases(minInterval) <==>
            RoundInterval(minInterval) >= minInterval || minInterval * DEFAULT_RES >= TWO_POW_63
  {
    if RoundInterval(minInterval) >= minInterval || minInterval * DEFAULT_RES >= TWO_POW_63 {
      forall a, b | 0 <= a <= b < TWO_POW_63 ensures Step(a, minInterval) <= Step(b, minInterval) {
        StepIs(a, minInterval);
        StepIs(b, minInterval);
        RoundMonotone(a / DEFAULT_RES, b / DEFAULT_RES);
        if a / DEFAULT_RES < minInterval <= b / DEFAULT_RES {
          RoundMonotone(minInterval, b / DEFAULT_RES);
        }
      }
    } else {
      var below, at := (minInterval - 1) * DEFAULT_RES, minInterval * DEFAULT_RES;
      StepIs(below, minInterval);
      StepIs(at, minInterval);
      assert Step(below, minInterval) > Step(at, minInterval);
    }
  }

  /** With the default minimum of a second the step is at least a second and never decreases. */
  lemma DefaultMinimum(range: int)
    requires 0 <= range < TWO_POW_63
    ensures Step(range, DEFAULT_MIN_INTERVAL) >= SECOND && NeverDecreases(DEFAULT_MIN_INTERVAL)
  {
    StepIs(range, DEFAULT_MIN_INTERVAL);
    if SECOND <= range / DEFAULT_RES {
      RoundMonotone(SECOND, range / DEFAULT_RES);
    }
    StepNeverDecreases(DEFAULT_MIN_INTERVAL);
  }

  /** A minimum of three seconds is above the two seconds that three seconds round to, so a longer range can get a
      shorter step. */
  lemma LongerRangeShorterStep()
    ensures Step(4_499 * SECOND, 3 * SECOND) == 3 * SECOND && Step(4_500 * SECOND, 3 * SECOND) == 2 * SECOND
  {
    StepIs(4_499 * SECOND, 3 * SECOND);
    StepIs(4_500 * SECOND, 3 * SECOND);
  }

  lemma RoundedTextExact(interval: int)
    ensures FormatDuration(RoundInterval(interval)).Nanos() == RoundInterval(interval)
  {
  }

  /** The printed step: every rounded step is printed exactly, a minimum is printed rounded down to its unit, and one
      below a millisecond is printed as a millisecond. */
  lemma TextIsStep(to: int, from: int, minInterval: int)
    requires minInterval > 0
    ensures var r := Calculate(to, from, minInterval);
            && (r.value != minInterval ==> r.text.Nanos() == r.value)
            && (minInterval >= MS ==> r.text.Nanos() <= r.value < r.text.Nanos() + r.text.unit)
            && (minInterval < MS && r.value == minInterval ==> r.text.Nanos() == MS)
  {
    var interval := TruncDiv(Wrap64(to - from), DEFAULT_RES);
    if interval >= minInterval {
      RoundedTextExact(interval);
    }
  }
}
