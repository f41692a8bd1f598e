/** What the exporter reads from the in-process metrics registry: one
    snapshot per registered metric, by kind. Floating-point statistics are
    `real`; the percentile computation is a function the snapshot carries. */
module Source {

  /** Go's `int64`. */
  newtype int64 = x: int | -0x8000_0000_0000_0000 <= x < 0x8000_0000_0000_0000

  /** `uint64(n)` on an `int64`: the two's-complement bit pattern read as
      unsigned, so a negative value wraps to the top of the range. */
  function Int64ToUint64(n: int64): (u: nat)
    ensures u < 0x1_0000_0000_0000_0000
    ensures 0 <= n ==> u == n as int
    ensures n < 0 ==> u == n as int + 0x1_0000_0000_0000_0000
  {
    (n as int) % 0x1_0000_0000_0000_0000
  }

  /** A distribution snapshot, as Histogram and Timer snapshots expose it. */
  datatype Distribution = Distribution(
    count: int64,                // Count()
    sum: int64,                  // Sum()
    percentile: real -> real     // one entry of Percentiles(ps)
  )

  /** A Histogram snapshot: the distribution and the reservoir's samples. */
  datatype HistogramSnapshot = HistogramSnapshot(dist: Distribution, samples: seq<int64>)

  /** A Meter snapshot. */
  datatype MeterSnapshot = MeterSnapshot(
    count: int64, rate1: real, rate5: real, rate15: real, rateMean: real)

  /** A Timer snapshot: a distribution of durations plus a meter's rates;
      its one Count() is the distribution's count. */
  datatype TimerSnapshot = TimerSnapshot(
    dist: Distribution, rate1: real, rate5: real, rate15: real, rateMean: real,
    max: int64, min: int64, mean: real, variance: real, stdDev: real)

  /** The kinds the publisher tells apart; `Unknown` is every other kind. */
  datatype Metric =
    | Counter(count: int64)
    | Gauge(value: int64)
    | GaugeFloat64(floatValue: real)
    | Histogram(hist: HistogramSnapshot)
    | Meter(meter: MeterSnapshot)
    | Timer(timer: TimerSnapshot)
    | Unknown

  /** The distribution behind a Histogram or a Timer. */
  function DistributionOf(m: Metric): Distribution
    requires m.Histogram? || m.Timer?
  {
    if m.Histogram? then m.hist.dist else m.timer.dist
  }

  /** `Percentiles(ps)`: the value at each requested percentile, in order. */
  function Percentiles(d: Distribution, ps: seq<real>): (r: seq<real>)
    ensures |r| == |ps| && forall i :: 0 <= i < |ps| ==> r[i] == d.percentile(ps[i])
  {
    seq(|ps|, i requires 0 <= i < |ps| => d.percentile(ps[i]))
  }

  /** The name part the exported histogram gets after the metric name. */
  function TypeName(m: Metric): (r: string)
    requires m.Histogram? || m.Timer?
    ensures |r| > 0 && (r == "histogram" <==> m.Histogram?)
  {
    if m.Histogram? then "histogram" else "timer"
  }
}
