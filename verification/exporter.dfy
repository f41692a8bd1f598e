/** The publisher: a configuration object that caches one gauge family per
    key and one histogram collector per key, and turns each metric of the
    source registry into gauge writes and histogram updates. */
module Exporter {

  import opened Wrappers
  import opened Names
  import opened Extract
  import opened Prom
  import opened Collector
  import opened Labels
  import opened Source

  /** One `g.With(labels).Set(value)`: the family, the full label set, the value. */
  datatype GaugeWrite = GaugeWrite(vec: GaugeVec, labels: map<string, string>, value: real)

  const DefaultHistogramBuckets: seq<real> := [0.05, 0.1, 0.25, 0.50, 0.75, 0.9, 0.95, 0.99]
  const DefaultTimerBuckets: seq<real> := [0.50, 0.95, 0.99, 0.999]

  /** A cache after a step that may add `key`: either unchanged, or the old
      cache plus one entry at a key it did not have. No entry is replaced. */
  ghost predicate Extends<V>(before: map<string, V>, after: map<string, V>, key: string) {
    after == before || (key !in before && key in after && after == before[key := after[key]])
  }

  /** What a collector cache records for a key: nothing when it has no
      collector there. */
  function HeldAt(held: map<string, Option<ConstHistogram>>, key: string): Option<ConstHistogram> {
    if key in held then held[key] else None
  }

  /** Where a gauge family comes from after `Register` answers: the new
      family, the one already registered, or nowhere (a panic). */
  function StoredVec(o: Outcome, created: GaugeVec): Option<GaugeVec> {
    match o
    case Registered => Some(created)
    case AlreadyRegistered(existing) => Some(existing)
    case Failed(_) => None
  }

  /** Whether the registry, after `history`, takes request `r`: a gauge
      family is taken unless the answer is a plain error (an existing family
      is used instead), a collector only when it is registered outright,
      since `MustRegister` panics on every error. */
  predicate Accepted(decide: (seq<Request>, Request) -> Outcome, history: seq<Request>, r: Request) {
    match r
    case RegisterGauge(_) => !decide(history, r).Failed?
    case RegisterCollector => decide(history, r) == Registered
  }

  /** The registry's side of a step that asks for the registrations
    `reqs` in order and stops at the first one refused, taking the
    registry's history from `before` to `after`: the step adds a prefix
    of `reqs` to the history; the registry took each request it made but
    the last; the step panics exactly when it made one and the registry
    refused the last; and without a panic it made all of `reqs`. So the
    history and the panic are fixed by `before`, `reqs` and `decide`. */
  predicate Answered(decide: (seq<Request>, Request) -> Outcome, before: seq<Request>,
                     after: seq<Request>, reqs: seq<Request>, panicked: bool)
  {
    && before <= after && after <= before + reqs
    && (forall i :: |before| <= i < |after| - 1 ==> Accepted(decide, after[..i], after[i]))
    && (panicked <==> |before| < |after| && !Accepted(decide, after[..|after| - 1], after[|after| - 1]))
    && (!panicked ==> after == before + reqs)
  }

  /** A step that makes one registration panics exactly when the
    registry refuses it. */
  lemma AnsweredOne(decide: (seq<Request>, Request) -> Outcome, history: seq<Request>, r: Request,
                    panicked: bool)
    requires panicked <==> !Accepted(decide, history, r)
    ensures Answered(decide, history, history + [r], [r], panicked)
  {
    assert (history + [r])[..|history|] == history;
  }

  /** A step that asks for nothing answers nothing and cannot panic. */
  lemma AnsweredNone(decide: (seq<Request>, Request) -> Outcome, history: seq<Request>)
    ensures Answered(decide, history, history, [], false)
  {
    assert history + [] == history;
  }

  /** Two steps, the second taken only when the first does not panic,
    ask for the registrations of the first and then those of the second,
    and stop at the first one refused. */
  lemma AnsweredThen(decide: (seq<Request>, Request) -> Outcome, h0: seq<Request>, h1: seq<Request>,
                     h2: seq<Request>, a: seq<Request>, b: seq<Request>, p1: bool, panicked: bool)
    requires Answered(decide, h0, h1, a, p1)
    requires p1 ==> h2 == h1 && panicked
    requires !p1 ==> Answered(decide, h1, h2, b, panicked)
    ensures Answered(decide, h0, h2, a + b, panicked)
  {
    assert h0 + (a + b) == (h0 + a) + b;
    if p1 {
      assert (h0 + a + b)[..|h1|] == (h0 + a)[..|h1|];
    } else {
      forall i | |h0| <= i < |h2| - 1
        ensures Accepted(decide, h2[..i], h2[i])
      {
        if i < |h1| {
          assert h2[..i] == h1[..i] && h2[i] == h1[i];
        }
      }
      if |h1| == |h2| && |h0| < |h1| {
        assert h2[..|h2| - 1] == h1[..|h1| - 1];
      }
    }
  }

  /** One gauge write the dispatch makes for a metric: the extra labels it
      is made under and the value. */
  datatype Setting = Setting(extra: map<string, string>, value: real)

  /** The rate unit a write is labelled with. */
  function Unit(extra: map<string, string>, unit: string): map<string, string> {
    extra["rate_unit" := unit]
  }

  /** The gauge writes the dispatch makes for one metric, in order: the
      value of a counter or gauge; the last sample of a non-empty histogram;
      the four rates and the count of a meter, each under its rate unit; the
      rates, count, sum, extremes and moments of a timer, each under its
      rate unit; and nothing for any other kind. */
  function GaugePlan(metric: Metric, extra: map<string, string>): seq<Setting> {
    match metric
    case Counter(count) => [Setting(extra, count as real)]
    case Gauge(value) => [Setting(extra, value as real)]
    case GaugeFloat64(value) => [Setting(extra, value)]
    case Histogram(h) =>
      if |h.samples| > 0 then [Setting(extra, h.samples[|h.samples| - 1] as real)] else []
    case Meter(m) =>
      [ Setting(Unit(extra, "rate1"), m.rate1),
        Setting(Unit(extra, "rate5"), m.rate5),
        Setting(Unit(extra, "rate15"), m.rate15),
        Setting(Unit(extra, "mean"), m.rateMean),
        Setting(Unit(extra, "count"), m.count as real) ]
    case Timer(t) => TimerRates(t, extra) + TimerStats(t, extra)
    case Unknown => []
  }

  /** The first five writes of a timer: its rates and its count. */
  function TimerRates(t: TimerSnapshot, extra: map<string, string>): seq<Setting> {
    [ Setting(Unit(extra, "rate1"), t.rate1),
      Setting(Unit(extra, "rate5"), t.rate5),
      Setting(Unit(extra, "rate15"), t.rate15),
      Setting(Unit(extra, "rate_mean"), t.rateMean),
      Setting(Unit(extra, "count"), t.dist.count as real) ]
  }

  /** The last six writes of a timer: its sum, extremes and moments. */
  function TimerStats(t: TimerSnapshot, extra: map<string, string>): seq<Setting> {
    [ Setting(Unit(extra, "sum"), t.dist.sum as real),
      Setting(Unit(extra, "max"), t.max as real),
      Setting(Unit(extra, "min"), t.min as real),
      Setting(Unit(extra, "mean"), t.mean),
      Setting(Unit(extra, "variance"), t.variance),
      Setting(Unit(extra, "std_dev"), t.stdDev) ]
  }

  /** Which metrics write no gauge at all, and how many writes the others
    make: one under the extra labels as given for a value or a non-empty
    histogram, one per rate unit for a meter or a timer. */
  lemma GaugePlanShape(metric: Metric, extra: map<string, string>)
    ensures GaugePlan(metric, extra) == [] <==> metric.Unknown? || (metric.Histogram? && metric.hist.samples == [])
    ensures metric.Meter? ==> |GaugePlan(metric, extra)| == |MeterUnits|
    ensures metric.Timer? ==> |GaugePlan(metric, extra)| == |TimerUnits|
    ensures !metric.Meter? && !metric.Timer? ==>
      |GaugePlan(metric, extra)| <= 1 && forall s :: s in GaugePlan(metric, extra) ==> s.extra == extra
  {
  }

  /** A timer's plan is its rate writes, then its statistics writes. */
  lemma TimerPlan(t: TimerSnapshot, extra: map<string, string>)
    ensures GaugePlan(Timer(t), extra) == TimerRates(t, extra) + TimerStats(t, extra)
  {
  }

  /** Every write of a plan carries the extra labels as given, except for
    the rate unit the meter and timer cases set. */
  lemma PlanKeepsLabels(metric: Metric, extra: map<string, string>)
    ensures forall i, k :: 0 <= i < |GaugePlan(metric, extra)| && k != "rate_unit" ==>
      (k in GaugePlan(metric, extra)[i].extra <==> k in extra) &&
      (k in extra ==> GaugePlan(metric, extra)[i].extra[k] == extra[k])
  {
  }

  /** The rate units of a meter's writes and of a timer's writes, in order. */
  const MeterUnits: seq<string> := ["rate1", "rate5", "rate15", "mean", "count"]
  const TimerUnits: seq<string> :=
    ["rate1", "rate5", "rate15", "rate_mean", "count", "sum", "max", "min", "mean", "variance", "std_dev"]

  lemma UnitsDistinct()
    ensures forall i, j :: 0 <= i < j < |MeterUnits| ==> MeterUnits[i] != MeterUnits[j]
    ensures forall i, j :: 0 <= i < j < |TimerUnits| ==> TimerUnits[i] != TimerUnits[j]
  {
  }

  /** A meter's or a timer's writes carry its rate units in order. */
  lemma PlanUnits(metric: Metric, extra: map<string, string>)
    requires metric.Meter? || metric.Timer?
    ensures var units := if metric.Meter? then MeterUnits else TimerUnits;
      |GaugePlan(metric, extra)| == |units| &&
      forall i :: 0 <= i < |units| ==> GaugePlan(metric, extra)[i].extra == Unit(extra, units[i])
  {
    if metric.Timer? {
      TimerUnitsInOrder(metric.timer, extra);
    }
  }

  /** A timer's rate writes carry the first five rate units, its
    statistics writes the last six, and together all eleven in order. */
  lemma TimerUnitsInOrder(t: TimerSnapshot, extra: map<string, string>)
    ensures |TimerRates(t, extra)| == 5 && |TimerStats(t, extra)| == 6
    ensures forall i :: 0 <= i < 5 ==> TimerRates(t, extra)[i].extra == Unit(extra, TimerUnits[i])
    ensures forall i :: 0 <= i < 6 ==> TimerStats(t, extra)[i].extra == Unit(extra, TimerUnits[5 + i])
    ensures |TimerRates(t, extra) + TimerStats(t, extra)| == |TimerUnits|
    ensures forall i :: 0 <= i < |TimerUnits| ==>
      (TimerRates(t, extra) + TimerStats(t, extra))[i].extra == Unit(extra, TimerUnits[i])
  {
    var rates: seq<Setting>, stats: seq<Setting> := TimerRates(t, extra), TimerStats(t, extra);
    forall i | 0 <= i < |TimerUnits|
      ensures (rates + stats)[i].extra == Unit(extra, TimerUnits[i])
    {
      if i < 5 {
        assert (rates + stats)[i] == rates[i];
      } else {
        assert (rates + stats)[i] == stats[i - 5];
      }
    }
  }

  /** A write whose own labels set the rate unit is written with that unit,
    whatever the config labels say. */
  lemma UnitWins(config: map<string, string>, extra: map<string, string>, unit: string)
    ensures (config + Unit(extra, unit))["rate_unit"] == unit
  {
  }

  /** The writes one metric makes go to pairwise different label sets, so
    none of them overwrites another: the rate units of a meter, and those
    of a timer, are all different. */
  lemma PlanSeriesDistinct(metric: Metric, extra: map<string, string>, vec: GaugeVec,
                           config: map<string, string>)
    ensures var w := Writes(GaugePlan(metric, extra), vec, config);
      forall i, j :: 0 <= i < j < |w| ==> w[i].labels != w[j].labels
  {
    var plan := GaugePlan(metric, extra);
    var w := Writes(plan, vec, config);
    if metric.Meter? || metric.Timer? {
      var units := if metric.Meter? then MeterUnits else TimerUnits;
      PlanUnits(metric, extra);
      UnitsDistinct();
      forall i, j | 0 <= i < j < |w| ensures w[i].labels != w[j].labels {
        assert w[i].labels == config + Unit(extra, units[i]);
        assert w[j].labels == config + Unit(extra, units[j]);
        UnitWins(config, extra, units[i]);
        UnitWins(config, extra, units[j]);
      }
    }
  }

  /** The log entries a plan adds when every write goes to family `vec`
      under the config labels overlaid by the write's own labels. */
  function Writes(plan: seq<Setting>, vec: GaugeVec, config: map<string, string>): seq<GaugeWrite> {
    seq(|plan|, i requires 0 <= i < |plan| => GaugeWrite(vec, config + plan[i].extra, plan[i].value))
  }

  /** The writes of two plans run one after the other. */
  lemma WritesAppend(a: seq<Setting>, b: seq<Setting>, vec: GaugeVec, config: map<string, string>)
    ensures Writes(a + b, vec, config) == Writes(a, vec, config) + Writes(b, vec, config)
  {
  }

  /** The writes of a one-step plan. */
  lemma WritesOne(step: Setting, vec: GaugeVec, config: map<string, string>)
    ensures Writes([step], vec, config) == [GaugeWrite(vec, config + step.extra, step.value)]
  {
  }

  /** The writes of a four-step plan. */
  lemma WritesFour(plan: seq<Setting>, vec: GaugeVec, config: map<string, string>)
    requires |plan| == 4
    ensures Writes(plan, vec, config) ==
      [ GaugeWrite(vec, config + plan[0].extra, plan[0].value),
        GaugeWrite(vec, config + plan[1].extra, plan[1].value),
        GaugeWrite(vec, config + plan[2].extra, plan[2].value),
        GaugeWrite(vec, config + plan[3].extra, plan[3].value) ]
  {
  }

  /** The writes of a meter, one per rate unit. */
  lemma MeterWrites(m: MeterSnapshot, extra: map<string, string>, vec: GaugeVec, labels: map<string, string>)
    ensures Writes(GaugePlan(Meter(m), extra), vec, labels) ==
      [ GaugeWrite(vec, labels + Unit(extra, "rate1"), m.rate1),
        GaugeWrite(vec, labels + Unit(extra, "rate5"), m.rate5),
        GaugeWrite(vec, labels + Unit(extra, "rate15"), m.rate15),
        GaugeWrite(vec, labels + Unit(extra, "mean"), m.rateMean),
        GaugeWrite(vec, labels + Unit(extra, "count"), m.count as real) ]
  {
  }

  /** The writes of a timer's rates and count. */
  lemma TimerRatesWrites(t: TimerSnapshot, extra: map<string, string>, vec: GaugeVec, labels: map<string, string>)
    ensures Writes(TimerRates(t, extra), vec, labels) ==
      [ GaugeWrite(vec, labels + Unit(extra, "rate1"), t.rate1),
        GaugeWrite(vec, labels + Unit(extra, "rate5"), t.rate5),
        GaugeWrite(vec, labels + Unit(extra, "rate15"), t.rate15),
        GaugeWrite(vec, labels + Unit(extra, "rate_mean"), t.rateMean),
        GaugeWrite(vec, labels + Unit(extra, "count"), t.dist.count as real) ]
  {
  }

  /** The writes of a timer's sum, extremes and moments. */
  lemma TimerStatsWrites(t: TimerSnapshot, extra: map<string, string>, vec: GaugeVec, labels: map<string, string>)
    ensures Writes(TimerStats(t, extra), vec, labels) ==
      [ GaugeWrite(vec, labels + Unit(extra, "sum"), t.dist.sum as real),
        GaugeWrite(vec, labels + Unit(extra, "max"), t.max as real),
        GaugeWrite(vec, labels + Unit(extra, "min"), t.min as real),
        GaugeWrite(vec, labels + Unit(extra, "mean"), t.mean),
        GaugeWrite(vec, labels + Unit(extra, "variance"), t.variance),
        GaugeWrite(vec, labels + Unit(extra, "std_dev"), t.stdDev) ]
  {
  }

  lemma AppendFour<T>(s: seq<T>, a: T, b: T, c: T, d: T)
    ensures s + [a] + [b] + [c] + [d] == s + [a, b, c, d]
  {
  }

  lemma AppendSix<T>(s: seq<T>, a: T, b: T, c: T, d: T, e: T, f: T)
    ensures s + [a] + [b] + [c] + [d] + [e] + [f] == s + [a, b, c, d, e, f]
  {
  }

  lemma UpdateTwice<K, V>(m: map<K, V>, k: K, a: V, b: V)
    ensures m[k := a][k := b] == m[k := b]
  {
  }

  lemma AppendAssoc<T>(s: seq<T>, a: seq<T>, b: seq<T>)
    ensures s + a + b == s + (a + b)
  {
  }

  /** Label names and values of a constant histogram labelled by two label
    maps: every name of either map, once per map it is in, and each value
    at the position of its name, as the merged map gives it. */
  ghost predicate LabelledBy(names: seq<string>, values: seq<string>,
                             config: map<string, string>, extra: map<string, string>)
  {
    && multiset(names) == multiset(config.Keys) + multiset(extra.Keys)
    && |values| == |names|
    && forall i :: 0 <= i < |values| ==>
         names[i] in config + extra && values[i] == (config + extra)[names[i]]
  }

  /** The exporter's two caches, the log of gauge writes, what each
    cached collector holds and the registrations the registry has seen,
    as one value. */
  datatype Caches = Caches(gauges: map<string, GaugeVec>, written: seq<GaugeWrite>,
                           customMetrics: map<string, CustomCollector>,
                           held: map<string, Option<ConstHistogram>>,
                           attempts: seq<Request>)

  /** The caches between two states of a run: every cached gauge family
    and every cached collector is still cached at its key, and the log
    and the registry's history only gain entries at their end. */
  ghost predicate Grown(before: Caches, after: Caches) {
    && (forall k :: k in before.gauges ==> k in after.gauges && after.gauges[k] == before.gauges[k])
    && (forall k :: k in before.customMetrics ==>
          k in after.customMetrics && after.customMetrics[k] == before.customMetrics[k])
    && before.written <= after.written
    && before.attempts <= after.attempts
  }

  lemma GrownTransitive(s0: Caches, s1: Caches, s2: Caches)
    requires Grown(s0, s1) && Grown(s1, s2)
    ensures Grown(s0, s2)
  {
  }

  /** Whether the dispatch also publishes a histogram for the metric. */
  predicate UpdatesHistogram(metric: Metric) {
    metric.Histogram? || metric.Timer?
  }

  class PrometheusConfig {
    const namespace: string
    const subsystem: string
    const promRegistry: Registerer
    const flushInterval: int
    var customMetrics: map<string, CustomCollector>
    var histogramBuckets: seq<real>
    var timerBuckets: seq<real>
    var gauges: map<string, GaugeVec>
    var labels: map<string, string>
    /** Every gauge write so far, in order. */
    ghost var written: seq<GaugeWrite>
    /** What the collector cached at each key holds. */
    ghost var held: map<string, Option<ConstHistogram>>
    /** The key each cached collector is cached at. */
    ghost var owner: map<CustomCollector, string>

    /** Each key has its own collector, and `held` records what each
      cached collector holds. */
    ghost predicate Valid()
      reads this`customMetrics, this`held, this`owner, customMetrics.Values
    {
      && held.Keys == customMetrics.Keys
      && (forall k :: k in customMetrics ==> customMetrics[k].metric == held[k])
      && (forall k :: k in customMetrics ==> customMetrics[k] in owner && owner[customMetrics[k]] == k)
    }

    /** `NewPrometheusProvider`: empty caches and labels, the default
      percentile buckets. */
    constructor NewPrometheusProvider(namespace: string, subsystem: string,
                                      promRegistry: Registerer, flushInterval: int)
      ensures Valid()
      ensures this.namespace == namespace && this.subsystem == subsystem
      ensures this.promRegistry == promRegistry && this.flushInterval == flushInterval
      ensures customMetrics == map[] && gauges == map[] && labels == map[]
      ensures histogramBuckets == DefaultHistogramBuckets && timerBuckets == DefaultTimerBuckets
      ensures written == [] && held == map[]
    {
      this.namespace := namespace;
      this.subsystem := subsystem;
      this.promRegistry := promRegistry;
      this.flushInterval := flushInterval;
      customMetrics := map[];
      histogramBuckets := DefaultHistogramBuckets;
      timerBuckets := DefaultTimerBuckets;
      gauges := map[];
      labels := map[];
      written := [];
      held := map[];
      owner := map[];
    }

    method WithHistogramBuckets(b: seq<real>) returns (c: PrometheusConfig)
      modifies this`histogramBuckets
      ensures histogramBuckets == b && c == this
    {
      histogramBuckets := b;
      c := this;
    }

    method WithTimerBuckets(b: seq<real>) returns (c: PrometheusConfig)
      modifies this`timerBuckets
      ensures timerBuckets == b && c == this
    {
      timerBuckets := b;
      c := this;
    }

    method WithLabels(l: map<string, string>) returns (c: PrometheusConfig)
      modifies this`labels
      ensures labels == l && c == this
    {
      labels := l;
      c := this;
    }

    /** `createKey` on this configuration. */
    function Key(name: string): string {
      CreateKey(namespace, subsystem, name)
    }

    /** Distinct metric names never share a cache key. */
    lemma KeyInjective(n1: string, n2: string)
      requires Key(n1) == Key(n2)
      ensures n1 == n2
    {
      CreateKeyInjective(namespace, subsystem, n1, n2);
    }

    /** The options of the gauge family for `name`: the flattened
      namespace, subsystem and name, and the raw name as help text. */
    function Opts(name: string): (o: GaugeOpts)
      ensures o.help == name && |o.name| == |name|
      ensures forall i :: 0 <= i < |o.name| ==> !IsDisallowed(o.name[i])
    {
      GaugeOpts(FlattenKey(namespace), FlattenKey(subsystem), FlattenKey(name), name)
    }

    /** The gauge family `gaugeFromNameAndValue` creates for a new key:
      every config label name and every extra label name, a name in both
      counted twice. */
    function NewVec(name: string, config: map<string, string>, extra: map<string, string>): (v: GaugeVec)
      ensures v.opts == Opts(name)
      ensures forall n :: v.labelNames[n] == (if n in config then 1 else 0) + (if n in extra then 1 else 0)
    {
      GaugeVec(Opts(name), multiset(config.Keys) + multiset(extra.Keys))
    }

    /** The registration of the family built from `name` and the config
      and extra label names. */
    function FamilyRequest(name: string, config: map<string, string>, extra: map<string, string>): Request {
      RegisterGauge(NewVec(name, config, extra))
    }

    /** The gauge cache after the registry, with history `history`, answers
      the registration of the family for `name`: the family it answers with
      is cached at the key, and nothing is cached on an error. */
    ghost predicate FamilyCached(history: seq<Request>, gaugesBefore: map<string, GaugeVec>,
                                 gaugesAfter: map<string, GaugeVec>, name: string,
                                 config: map<string, string>, extra: map<string, string>)
    {
      var stored := StoredVec(promRegistry.decide(history, FamilyRequest(name, config, extra)),
                              NewVec(name, config, extra));
      && (stored.Some? ==> gaugesAfter == gaugesBefore[Key(name) := stored.value])
      && (stored.None? ==> gaugesAfter == gaugesBefore)
    }

    /** A lookup of `gaugeFromNameAndValue` that finds no family cached at
      the key: it registers the family built from `name` and the config and
      extra label names, once; the family the registry answers with, if
      any, is cached at the key, and no answer panics. */
    ghost predicate NewFamily(before: seq<Request>, after: seq<Request>, gaugesBefore: map<string, GaugeVec>,
                              gaugesAfter: map<string, GaugeVec>, name: string, config: map<string, string>,
                              extra: map<string, string>, panicked: bool)
    {
      && after == before + [FamilyRequest(name, config, extra)]
      && (panicked <==> StoredVec(promRegistry.decide(before, FamilyRequest(name, config, extra)),
                                  NewVec(name, config, extra)).None?)
      && FamilyCached(before, gaugesBefore, gaugesAfter, name, config, extra)
    }

    /** The registrations a gauge step asks for: the family of its first
      write, when the key has none cached. */
    function GaugeRequests(name: string, plan: seq<Setting>, config: map<string, string>,
                           cached: map<string, GaugeVec>): seq<Request>
    {
      if Key(name) in cached || plan == [] then [] else [FamilyRequest(name, config, plan[0].extra)]
    }

    /** The registrations a histogram step asks for: a collector, when the
      key has none cached. */
    function CollectorRequests(name: string, cached: map<string, CustomCollector>): seq<Request>
    {
      if Key(name) in cached then [] else [RegisterCollector]
    }

    /** `gaugeFromNameAndValue`: find or create the family for the key, then
      write the value under the config labels overlaid by the extra ones.
      A cached family is reused and nothing is registered. Otherwise the new
      family is registered once: on success it is cached, when one is
      already registered that one is cached instead, and any other error
      panics before anything is cached or written. */
    method GaugeFromNameAndValue(name: string, val: real, extraLabels: map<string, string>)
      returns (panicked: bool)
      modifies this`gauges, this`written, promRegistry
      ensures Extends(old(gauges), gauges, Key(name))
      ensures Key(name) in old(gauges) ==>
        !panicked && gauges == old(gauges) && promRegistry.attempts == old(promRegistry.attempts)
      ensures Key(name) !in old(gauges) ==>
        NewFamily(old(promRegistry.attempts), promRegistry.attempts, old(gauges), gauges, name, labels, extraLabels, panicked)
      ensures panicked ==> gauges == old(gauges) && written == old(written)
      ensures !panicked ==>
        && Key(name) in gauges
        && written == old(written) + [GaugeWrite(gauges[Key(name)], labels + extraLabels, val)]
      ensures Answered(promRegistry.decide, old(promRegistry.attempts), promRegistry.attempts,
                       if Key(name) in old(gauges) then [] else [FamilyRequest(name, labels, extraLabels)], panicked)
    {
      var gaugeLabels, labelNames := GaugeLabels(labels, extraLabels);
      var g;
      g, panicked := FamilyFor(name, extraLabels, labelNames);
      if panicked {
        return;
      }
      written := written + [GaugeWrite(g, gaugeLabels, val)];
    }

    /** The lookup of `gaugeFromNameAndValue`: the family cached at the key
      or, failing that, a new family over `labelNames`, registered once and
      cached unless the registry refuses it, which panics. */
    method FamilyFor(name: string, extraLabels: map<string, string>, labelNames: seq<string>)
      returns (g: GaugeVec, panicked: bool)
      requires multiset(labelNames) == multiset(labels.Keys) + multiset(extraLabels.Keys)
      modifies this`gauges, promRegistry
      ensures Extends(old(gauges), gauges, Key(name))
      ensures Key(name) in old(gauges) ==>
        !panicked && gauges == old(gauges) && promRegistry.attempts == old(promRegistry.attempts)
      ensures Key(name) !in old(gauges) ==>
        NewFamily(old(promRegistry.attempts), promRegistry.attempts, old(gauges), gauges, name, labels, extraLabels, panicked)
      ensures !panicked ==> Key(name) in gauges && g == gauges[Key(name)]
      ensures Answered(promRegistry.decide, old(promRegistry.attempts), promRegistry.attempts,
                       if Key(name) in old(gauges) then [] else [FamilyRequest(name, labels, extraLabels)], panicked)
    {
      var key := Key(name);
      if key in gauges {
        AnsweredNone(promRegistry.decide, promRegistry.attempts);
        return gauges[key], false;
      }
      g := GaugeVec(Opts(name), multiset(labelNames));
      assert g == NewVec(name, labels, extraLabels);
      ghost var history := promRegistry.attempts;
      var err := promRegistry.Register(RegisterGauge(g));
      AnsweredOne(promRegistry.decide, history, RegisterGauge(g), err.Failed?);
      match err {
        case Registered =>
        case AlreadyRegistered(existing) =>
          g := existing;
        case Failed(_) =>
          return g, true;
      }
      gauges := gauges[key := g];
      panicked := false;
    }

    /** The constant histogram `histogramFromNameAndMetric` builds for a
      Histogram or Timer snapshot: its fully qualified name is the flattened
      namespace, subsystem and name followed by the kind, its help text the
      flattened name; it is labelled by every config label and every extra
      label (see `LabelledBy`); its count is the snapshot's count as
      unsigned, its sum the snapshot's sum, and its buckets the truncated
      percentile at each requested bucket. */
    ghost predicate IsPublished(h: ConstHistogram, name: string, metric: Metric,
                                buckets: seq<real>, config: map<string, string>,
                                extraLabels: map<string, string>)
      requires metric.Histogram? || metric.Timer?
    {
      var dist := DistributionOf(metric);
      var desc := HistogramDesc(FlattenKey(namespace), FlattenKey(subsystem),
                                FlattenKey(name) + "_" + TypeName(metric), FlattenKey(name),
                                h.desc.labelNames);
      && h == ConstHistogram(desc, Int64ToUint64(dist.count), dist.sum as real,
                             BucketMap(buckets, Percentiles(dist, buckets)), h.labelValues)
      && LabelledBy(h.desc.labelNames, h.labelValues, config, extraLabels)
    }

    /** What a collector holds after a publish that got past registration:
      the new histogram when the config and extra labels share no name, and
      otherwise what it held before, because the label names repeat and the
      histogram is refused. */
    ghost predicate HeldAfterPublish(before: Option<ConstHistogram>, after: Option<ConstHistogram>,
                                     name: string, metric: Metric,
                                     buckets: seq<real>, config: map<string, string>,
                                     extraLabels: map<string, string>)
      requires metric.Histogram? || metric.Timer?
    {
      if config.Keys !! extraLabels.Keys
      then after.Some? && IsPublished(after.value, name, metric, buckets, config, extraLabels)
      else after == before
    }

    /** The snapshot-to-histogram part of `histogramFromNameAndMetric`:
      percentiles, bucket map, label lists, descriptor and
      `NewConstHistogram`. It yields a histogram exactly when the config
      and extra labels share no name, and that histogram is the one
      described by `IsPublished`. */
    method BuildHistogram(name: string, metric: Metric, buckets: seq<real>,
                          extraLabels: map<string, string>)
      returns (constHistogram: Option<ConstHistogram>)
      requires metric.Histogram? || metric.Timer?
      ensures constHistogram.Some? <==> labels.Keys !! extraLabels.Keys
      ensures constHistogram.Some? ==> IsPublished(constHistogram.value, name, metric, buckets, labels, extraLabels)
    {
      var dist := DistributionOf(metric);
      var ps := Percentiles(dist, buckets);
      var count := Int64ToUint64(dist.count);
      var sum := dist.sum as real;
      var typeName := TypeName(metric);

      var bucketVals := BucketVals(buckets, ps);
      ghost var split;
      var labelNames, labelVals;
      labelNames, labelVals, split := HistogramLabels(labels, extraLabels);
      var desc := HistogramDesc(FlattenKey(namespace), FlattenKey(subsystem),
                                FlattenKey(name) + "_" + typeName, FlattenKey(name), labelNames);

      DistinctIffDisjoint(labelNames, labels.Keys, extraLabels.Keys);
      constHistogram := NewConstHistogram(desc, count, sum, bucketVals, labelVals);
      if constHistogram.Some? {
        PairedValues(labelNames, labelVals, labels, extraLabels, split);
      }
    }

    /** The lookup at the head of `histogramFromNameAndMetric`: the cached
      collector for the key, or a new empty one, registered once and cached
      only if that succeeds; a failed registration panics. */
    method CollectorFor(name: string) returns (collector: CustomCollector, panicked: bool)
      requires Valid()
      modifies this`customMetrics, this`held, this`owner, promRegistry
      ensures Valid()
      ensures Key(name) in old(customMetrics) ==>
        && !panicked && customMetrics == old(customMetrics) && held == old(held)
        && collector == customMetrics[Key(name)]
        && promRegistry.attempts == old(promRegistry.attempts)
      ensures Key(name) !in old(customMetrics) ==>
        && promRegistry.attempts == old(promRegistry.attempts) + [RegisterCollector]
        && (panicked <==> promRegistry.decide(old(promRegistry.attempts), RegisterCollector) != Registered)
      ensures Key(name) !in old(customMetrics) && panicked ==>
        customMetrics == old(customMetrics) && held == old(held)
      ensures Key(name) !in old(customMetrics) && !panicked ==>
        && fresh(collector)
        && customMetrics == old(customMetrics)[Key(name) := collector]
        && held == old(held)[Key(name) := None]
    {
      var key := Key(name);
      if key in customMetrics {
        collector := customMetrics[key];
        panicked := false;
      } else {
        collector := new CustomCollector();
        var err := promRegistry.Register(RegisterCollector);
        if err != Registered {
          return collector, true;
        }
        customMetrics := customMetrics[key := collector];
        held := held[key := None];
        owner := owner[collector := key];
        panicked := false;
      }
    }

    /** `histogramFromNameAndMetric`: find or create the collector for the
      key, then store in it a constant histogram of the snapshot. A new
      collector is registered once and cached only if that succeeds; a
      failed registration panics. Only the collector at the key changes. */
    method HistogramFromNameAndMetric(name: string, metric: Metric, buckets: seq<real>,
                                      extraLabels: map<string, string>)
      returns (panicked: bool)
      requires Valid()
      requires metric.Histogram? || metric.Timer?
      modifies this`customMetrics, this`held, this`owner, promRegistry, customMetrics.Values
      ensures Valid()
      ensures Extends(old(customMetrics), customMetrics, Key(name))
      ensures Key(name) in customMetrics && Key(name) !in old(customMetrics) ==> fresh(customMetrics[Key(name)])
      ensures Key(name) in old(customMetrics) ==> !panicked && promRegistry.attempts == old(promRegistry.attempts)
      ensures Key(name) !in old(customMetrics) ==>
        && promRegistry.attempts == old(promRegistry.attempts) + [RegisterCollector]
        && (panicked <==> promRegistry.decide(old(promRegistry.attempts), RegisterCollector) != Registered)
      ensures Answered(promRegistry.decide, old(promRegistry.attempts), promRegistry.attempts,
                       CollectorRequests(name, old(customMetrics)), panicked)
      ensures panicked ==> customMetrics == old(customMetrics) && held == old(held)
      ensures !panicked ==>
        && Key(name) in held
        && held == old(held)[Key(name) := held[Key(name)]]
        && HeldAfterPublish(HeldAt(old(held), Key(name)), held[Key(name)], name, metric, buckets, labels, extraLabels)
    {
      ghost var before, history := HeldAt(held, Key(name)), promRegistry.attempts;
      var collector;
      collector, panicked := CollectorFor(name);
      if Key(name) in old(customMetrics) {
        AnsweredNone(promRegistry.decide, history);
      } else {
        AnsweredOne(promRegistry.decide, history, RegisterCollector, panicked);
      }
      if panicked {
        return;
      }
      assert held[Key(name)] == before;
      StoreHistogram(collector, name, metric, buckets, extraLabels);
      if Key(name) !in old(held) {
        UpdateTwice(old(held), Key(name), None, held[Key(name)]);
      }
    }

    /** The tail of `histogramFromNameAndMetric`: build the histogram and,
      when that succeeds, make it what the collector at the key holds. */
    method StoreHistogram(collector: CustomCollector, name: string, metric: Metric,
                          buckets: seq<real>, extraLabels: map<string, string>)
      requires Valid()
      requires metric.Histogram? || metric.Timer?
      requires Key(name) in customMetrics && customMetrics[Key(name)] == collector
      modifies this`held, collector
      ensures Valid()
      ensures Key(name) in held && held == old(held)[Key(name) := held[Key(name)]]
      ensures HeldAfterPublish(old(held)[Key(name)], held[Key(name)], name, metric, buckets, labels, extraLabels)
    {
      var constHistogram := BuildHistogram(name, metric, buckets, extraLabels);
      if constHistogram.Some? {
        Hold(Key(name), collector, constHistogram);
      }
    }

    /** `collector.metric = constHistogram` for the collector cached at
      `key`: no other collector changes what it holds. */
    method Hold(key: string, collector: CustomCollector, h: Option<ConstHistogram>)
      requires Valid()
      requires key in customMetrics && customMetrics[key] == collector
      modifies this`held, collector
      ensures Valid()
      ensures held == old(held)[key := h]
    {
      collector.metric := h;
      held := held[key := h];
    }

    /** The buckets the dispatch uses for a histogram or timer. */
    function BucketsFor(metric: Metric): seq<real>
      reads this`histogramBuckets, this`timerBuckets
    {
      if metric.Histogram? then histogramBuckets else timerBuckets
    }

    /** The caches and the log, as one value. */
    ghost function State(): Caches
      reads this`gauges, this`written, this`customMetrics, this`held, promRegistry`attempts
    {
      Caches(gauges, written, customMetrics, held, promRegistry.attempts)
    }

    /** A gauge step of the dispatch for `name`, from `before` to `after`:
      the collector cache stays as it was; a panic or an empty plan leaves
      the log as it was, and otherwise the log gains the plan's writes, all
      to the family cached at the key. When the key has no family cached
      and the plan a first write, the step registers the family of that
      write once, caches what the registry answers with, and panics
      exactly when the answer is an error; otherwise it registers nothing,
      changes no cache and does not panic. */
    ghost predicate GaugeStep(before: Caches, after: Caches, name: string, plan: seq<Setting>,
                              config: map<string, string>, panicked: bool)
    {
      var key := Key(name);
      && after.customMetrics == before.customMetrics && after.held == before.held
      && (panicked || plan == [] ==> after.written == before.written)
      && (!panicked && plan != [] ==>
            key in after.gauges && after.written == before.written + Writes(plan, after.gauges[key], config))
      && (key in before.gauges || plan == [] ==> after.gauges == before.gauges)
      && (key !in before.gauges && plan != [] ==>
            FamilyCached(before.attempts, before.gauges, after.gauges, name, config, plan[0].extra))
      && Answered(promRegistry.decide, before.attempts, after.attempts,
                  GaugeRequests(name, plan, config, before.gauges), panicked)
    }

    /** A histogram step of the dispatch, from `before` to `after`: the
      gauge cache and the log stay as they were; a panic changes no
      collector; otherwise the key has a collector cached, and only that
      collector changes what it holds, to what a publish of the snapshot
      leaves in it. When the key has no collector cached, the step
      registers one once and caches it exactly when the registry takes it,
      panicking otherwise; when it has one, it registers nothing and does
      not panic. */
    ghost predicate HistogramStep(before: Caches, after: Caches, name: string, metric: Metric,
                                  buckets: seq<real>, config: map<string, string>,
                                  extra: map<string, string>, panicked: bool)
      requires UpdatesHistogram(metric)
    {
      var key := Key(name);
      && after.gauges == before.gauges && after.written == before.written
      && Extends(before.customMetrics, after.customMetrics, key)
      && (panicked ==> after.customMetrics == before.customMetrics && after.held == before.held)
      && (!panicked ==>
            && key in after.customMetrics && key in after.held
            && after.held == before.held[key := after.held[key]]
            && HeldAfterPublish(HeldAt(before.held, key), after.held[key], name, metric, buckets, config, extra))
      && Answered(promRegistry.decide, before.attempts, after.attempts,
                  CollectorRequests(name, before.customMetrics), panicked)
    }

    /** Whether the last registration in `after` beyond `before` is of a
      collector. */
    predicate LastIsCollector(before: seq<Request>, after: seq<Request>) {
      |before| < |after| && after[|after| - 1] == RegisterCollector
    }

    /** The first `n` requests of a history, or all of them if it is
      shorter. */
    function Take(history: seq<Request>, n: nat): seq<Request> {
      if n <= |history| then history[..n] else history
    }

    /** The state between the gauge step and the histogram step of a
      histogram: the gauge cache and log as they end up, the collectors as
      they were, and the history up to the family's registration. */
    ghost function AfterGauges(before: Caches, after: Caches, gaugeReqs: seq<Request>): Caches {
      before.(gauges := after.gauges, written := after.written,
              attempts := Take(after.attempts, |before.attempts| + |gaugeReqs|))
    }

    /** The state between the histogram step and the gauge step of a
      timer: the collectors as they end up, the gauge cache and log as
      they were, and the history up to the collector's registration. */
    ghost function AfterCollector(before: Caches, after: Caches, collectorReqs: seq<Request>): Caches {
      before.(customMetrics := after.customMetrics, held := after.held,
              attempts := Take(after.attempts, |before.attempts| + |collectorReqs|))
    }

    /** The state after publishing one metric under `name` with extra labels
      `extra`, against the state before, as the type switch takes its
      steps. A histogram takes its gauge step, which panics only when its
      own registration is refused, and then, unless it panicked, its
      histogram step. A timer takes its histogram step, which panics only
      when the collector's registration is refused, and then, unless it
      panicked, its gauge step. Every other kind takes its gauge step
      alone. */
    ghost predicate Published(before: Caches, after: Caches, name: string, extra: map<string, string>,
                              metric: Metric, config: map<string, string>, buckets: seq<real>,
                              panicked: bool)
    {
      var plan := GaugePlan(metric, extra);
      match metric
      case Histogram(_) =>
        var mid := AfterGauges(before, after, GaugeRequests(name, plan, config, before.gauges));
        var gaugePanicked := panicked && !LastIsCollector(before.attempts, after.attempts);
        && GaugeStep(before, mid, name, plan, config, gaugePanicked)
        && (gaugePanicked ==> after == mid)
        && (!gaugePanicked ==> HistogramStep(mid, after, name, metric, buckets, config, extra, panicked))
      case Timer(_) =>
        var mid := AfterCollector(before, after, CollectorRequests(name, before.customMetrics));
        var histogramPanicked := panicked && LastIsCollector(before.attempts, after.attempts);
        && HistogramStep(before, mid, name, metric, buckets, config, extra, histogramPanicked)
        && (histogramPanicked ==> after == mid)
        && (!histogramPanicked ==> GaugeStep(mid, after, name, plan, config, panicked))
      case _ =>
        GaugeStep(before, after, name, plan, config, panicked)
    }

    /** A metric with only gauge writes is published by its gauge step.
      Here and below, each step is required as one fact (`== true`), so
      that a caller hands on its callee's postcondition whole instead of
      re-proving it conjunct by conjunct. */
    lemma PublishedByGauges(s0: Caches, s1: Caches, name: string, extra: map<string, string>,
                            metric: Metric, config: map<string, string>, buckets: seq<real>, panicked: bool)
      requires !UpdatesHistogram(metric)
      requires GaugeStep(s0, s1, name, GaugePlan(metric, extra), config, panicked) == true
      ensures Published(s0, s1, name, extra, metric, config, buckets, panicked) == true
    {
    }

    /** Between the two steps of a histogram lies the state its gauge step
      leaves, and the gauge step panics exactly when the metric panics on a
      registration that is not a collector's. */
    lemma HistogramMid(s0: Caches, s1: Caches, s2: Caches, name: string, extra: map<string, string>,
                       h: HistogramSnapshot, config: map<string, string>, buckets: seq<real>,
                       gaugePanicked: bool, panicked: bool)
      requires GaugeStep(s0, s1, name, GaugePlan(Histogram(h), extra), config, gaugePanicked) == true
      requires gaugePanicked ==> s2 == s1 && panicked
      requires !gaugePanicked ==> HistogramStep(s1, s2, name, Histogram(h), buckets, config, extra, panicked) == true
      ensures AfterGauges(s0, s2, GaugeRequests(name, GaugePlan(Histogram(h), extra), config, s0.gauges)) == s1
      ensures gaugePanicked == (panicked && !LastIsCollector(s0.attempts, s2.attempts))
    {
      var gaugeReqs := GaugeRequests(name, GaugePlan(Histogram(h), extra), config, s0.gauges);
      assert s1.attempts == s0.attempts + gaugeReqs;
      assert Take(s2.attempts, |s0.attempts| + |gaugeReqs|) == s1.attempts;
      if gaugePanicked {
        // The refused request is the family's.
        assert !LastIsCollector(s0.attempts, s2.attempts);
      } else if panicked {
        assert s2.attempts == s1.attempts + [RegisterCollector];
      }
    }

    /** A histogram is published by its gauge step followed, unless that
      panics, by its histogram step. */
    lemma PublishedHistogram(s0: Caches, s1: Caches, s2: Caches, name: string, extra: map<string, string>,
                             h: HistogramSnapshot, config: map<string, string>, buckets: seq<real>,
                             gaugePanicked: bool, panicked: bool)
      requires GaugeStep(s0, s1, name, GaugePlan(Histogram(h), extra), config, gaugePanicked) == true
      requires gaugePanicked ==> s2 == s1 && panicked
      requires !gaugePanicked ==> HistogramStep(s1, s2, name, Histogram(h), buckets, config, extra, panicked) == true
      ensures Published(s0, s2, name, extra, Histogram(h), config, buckets, panicked) == true
    {
      HistogramMid(s0, s1, s2, name, extra, h, config, buckets, gaugePanicked, panicked);
    }

    /** Between the two steps of a timer lies the state its histogram step
      leaves. */
    lemma TimerMid(s0: Caches, s1: Caches, s2: Caches, name: string, extra: map<string, string>,
                   t: TimerSnapshot, config: map<string, string>, buckets: seq<real>,
                   histogramPanicked: bool, panicked: bool)
      requires HistogramStep(s0, s1, name, Timer(t), buckets, config, extra, histogramPanicked) == true
      requires histogramPanicked ==> s2 == s1 && panicked
      requires !histogramPanicked ==> GaugeStep(s1, s2, name, GaugePlan(Timer(t), extra), config, panicked) == true
      ensures AfterCollector(s0, s2, CollectorRequests(name, s0.customMetrics)) == s1
    {
      var collectorReqs := CollectorRequests(name, s0.customMetrics);
      assert s1.attempts == s0.attempts + collectorReqs;
      assert Take(s2.attempts, |s0.attempts| + |collectorReqs|) == s1.attempts;
    }

    /** The timer's histogram step panics exactly when the timer panics on
      a collector registration. */
    lemma TimerPanicCause(s0: Caches, s1: Caches, s2: Caches, name: string, extra: map<string, string>,
                          t: TimerSnapshot, config: map<string, string>, buckets: seq<real>,
                          histogramPanicked: bool, panicked: bool)
      requires HistogramStep(s0, s1, name, Timer(t), buckets, config, extra, histogramPanicked) == true
      requires histogramPanicked ==> s2 == s1 && panicked
      requires !histogramPanicked ==> GaugeStep(s1, s2, name, GaugePlan(Timer(t), extra), config, panicked) == true
      ensures histogramPanicked == (panicked && LastIsCollector(s0.attempts, s2.attempts))
    {
      if histogramPanicked {
        assert LastIsCollector(s0.attempts, s2.attempts);
      } else if panicked {
        // The refused request is the family's.
        assert s2.attempts == s1.attempts + GaugeRequests(name, GaugePlan(Timer(t), extra), config, s1.gauges);
        assert !LastIsCollector(s0.attempts, s2.attempts);
      }
    }

    /** A timer is published by its histogram step followed, unless that
      panics, by its gauge step. */
    lemma PublishedTimer(s0: Caches, s1: Caches, s2: Caches, name: string, extra: map<string, string>,
                         t: TimerSnapshot, config: map<string, string>, buckets: seq<real>,
                         histogramPanicked: bool, panicked: bool)
      requires HistogramStep(s0, s1, name, Timer(t), buckets, config, extra, histogramPanicked) == true
      requires histogramPanicked ==> s2 == s1 && panicked
      requires !histogramPanicked ==> GaugeStep(s1, s2, name, GaugePlan(Timer(t), extra), config, panicked) == true
      ensures Published(s0, s2, name, extra, Timer(t), config, buckets, panicked) == true
    {
      TimerMid(s0, s1, s2, name, extra, t, config, buckets, histogramPanicked, panicked);
      TimerPanicCause(s0, s1, s2, name, extra, t, config, buckets, histogramPanicked, panicked);
    }

    /** A gauge step never drops or replaces a cached family or collector
      and never rewrites the log or the registry's history. */
    lemma GaugeStepGrows(before: Caches, after: Caches, name: string, plan: seq<Setting>,
                         config: map<string, string>, panicked: bool)
      requires GaugeStep(before, after, name, plan, config, panicked) == true
      ensures Grown(before, after)
    {
      var key := Key(name);
      if key !in before.gauges && plan != [] {
        assert forall k :: k in before.gauges ==> k != key;
      }
    }

    /** A histogram step never drops or replaces a cached family or
      collector and never rewrites the log or the registry's history. */
    lemma HistogramStepGrows(before: Caches, after: Caches, name: string, metric: Metric,
                             buckets: seq<real>, config: map<string, string>,
                             extra: map<string, string>, panicked: bool)
      requires UpdatesHistogram(metric)
      requires HistogramStep(before, after, name, metric, buckets, config, extra, panicked) == true
      ensures Grown(before, after)
    {
    }

    /** Publishing a metric, panic or not, never drops or replaces a cached
      family or collector and never rewrites the log. */
    lemma PublishedGrows(before: Caches, after: Caches, name: string, extra: map<string, string>,
                         metric: Metric, config: map<string, string>, buckets: seq<real>, panicked: bool)
      requires Published(before, after, name, extra, metric, config, buckets, panicked) == true
      ensures Grown(before, after)
    {
      var plan := GaugePlan(metric, extra);
      match metric
      case Histogram(_) =>
        var mid := AfterGauges(before, after, GaugeRequests(name, plan, config, before.gauges));
        var gaugePanicked := panicked && !LastIsCollector(before.attempts, after.attempts);
        GaugeStepGrows(before, mid, name, plan, config, gaugePanicked);
        if !gaugePanicked {
          HistogramStepGrows(mid, after, name, metric, buckets, config, extra, panicked);
          GrownTransitive(before, mid, after);
        }
      case Timer(_) =>
        var mid := AfterCollector(before, after, CollectorRequests(name, before.customMetrics));
        var histogramPanicked := panicked && LastIsCollector(before.attempts, after.attempts);
        HistogramStepGrows(before, mid, name, metric, buckets, config, extra, histogramPanicked);
        if !histogramPanicked {
          GaugeStepGrows(mid, after, name, plan, config, panicked);
          GrownTransitive(before, mid, after);
        }
      case _ =>
        GaugeStepGrows(before, after, name, plan, config, panicked);
    }

    /** The registrations publishing a metric asks for, in the order of
      the type switch: for a histogram the family of its first write and
      then a collector, for a timer the collector and then the family, for
      any other kind the family alone; each only when the key has none
      cached, and a family only when the plan has a write. */
    function Requests(before: Caches, name: string, extra: map<string, string>, metric: Metric,
                      config: map<string, string>): seq<Request>
    {
      var gaugeReqs := GaugeRequests(name, GaugePlan(metric, extra), config, before.gauges);
      match metric
      case Histogram(_) => gaugeReqs + CollectorRequests(name, before.customMetrics)
      case Timer(_) => CollectorRequests(name, before.customMetrics) + gaugeReqs
      case _ => gaugeReqs
    }

    /** Publishing a metric makes the registrations of `Requests` in order
      and stops at the first one refused: the registry takes each request
      made but the last, the metric panics exactly when the last is
      refused, and without a panic every one of them is made. */
    lemma PublishedAnswered(before: Caches, after: Caches, name: string, extra: map<string, string>,
                            metric: Metric, config: map<string, string>, buckets: seq<real>, panicked: bool)
      requires Published(before, after, name, extra, metric, config, buckets, panicked) == true
      ensures Answered(promRegistry.decide, before.attempts, after.attempts,
                       Requests(before, name, extra, metric, config), panicked)
    {
      var plan := GaugePlan(metric, extra);
      var gaugeReqs := GaugeRequests(name, plan, config, before.gauges);
      var collectorReqs := CollectorRequests(name, before.customMetrics);
      match metric
      case Histogram(_) =>
        var mid := AfterGauges(before, after, gaugeReqs);
        var gaugePanicked := panicked && !LastIsCollector(before.attempts, after.attempts);
        AnsweredThen(promRegistry.decide, before.attempts, mid.attempts, after.attempts,
                     gaugeReqs, collectorReqs, gaugePanicked, panicked);
      case Timer(_) =>
        var mid := AfterCollector(before, after, collectorReqs);
        var histogramPanicked := panicked && LastIsCollector(before.attempts, after.attempts);
        AnsweredThen(promRegistry.decide, before.attempts, mid.attempts, after.attempts,
                     collectorReqs, gaugeReqs, histogramPanicked, panicked);
      case _ =>
    }

    /** The family publishing a metric caches: when the key has none and
      the plan a write, and the registration of the family of the first
      write is made, what the registry answers it with is cached at the
      key, and nothing on an error; when it is not made, the gauge cache
      stays as it was. A timer registers its collector first, so the
      registry answers the family after that registration. */
    lemma PublishedFamily(before: Caches, after: Caches, name: string, extra: map<string, string>,
                          metric: Metric, config: map<string, string>, buckets: seq<real>, panicked: bool)
      requires Published(before, after, name, extra, metric, config, buckets, panicked) == true
      requires Key(name) !in before.gauges && GaugePlan(metric, extra) != []
      ensures var history := if metric.Timer? then before.attempts + CollectorRequests(name, before.customMetrics)
                             else before.attempts;
        && (|history| < |after.attempts| ==>
              FamilyCached(history, before.gauges, after.gauges, name, config, GaugePlan(metric, extra)[0].extra))
        && (|after.attempts| <= |history| ==> after.gauges == before.gauges)
    {
      var plan := GaugePlan(metric, extra);
      var collectorReqs := CollectorRequests(name, before.customMetrics);
      match metric
      case Histogram(_) =>
        var gaugePanicked := panicked && !LastIsCollector(before.attempts, after.attempts);
        var mid := AfterGauges(before, after, GaugeRequests(name, plan, config, before.gauges));
        if gaugePanicked {
          assert after == mid;
        } else {
          assert after.gauges == mid.gauges;
        }
      case Timer(_) =>
        var histogramPanicked := panicked && LastIsCollector(before.attempts, after.attempts);
        var mid := AfterCollector(before, after, collectorReqs);
        assert mid.gauges == before.gauges;
        if histogramPanicked {
          assert after == mid;
        } else {
          assert mid.attempts == before.attempts + collectorReqs;
        }
      case _ =>
    }

    /** The state after one registry entry, against the state before: a
      name the rewrite panics on changes nothing; any other is published
      under its rewritten name with the labels taken out of it. */
    ghost predicate EntryPublished(before: Caches, after: Caches, name: string, metric: Metric,
                                   config: map<string, string>, histogramBuckets: seq<real>,
                                   timerBuckets: seq<real>, panicked: bool)
    {
      var buckets := if metric.Histogram? then histogramBuckets else timerBuckets;
      match ExtractNameLabels(name)
      case Panic(_) => panicked && after == before
      case Ok(e) => Published(before, after, e.name, e.labels, metric, config, buckets, panicked)
    }

    /** One `gaugeFromNameAndValue` call of the dispatch, as a gauge step
      whose plan is that one write. */
    method WriteGauge(name: string, w: Setting) returns (panicked: bool)
      modifies this`gauges, this`written, promRegistry
      ensures GaugeStep(old(State()), State(), name, [w], labels, panicked) == true
    {
      panicked := GaugeFromNameAndValue(name, w.value, w.extra);
      if !panicked {
        WritesOne(w, gauges[Key(name)], labels);
      }
    }

    /** A gauge step for the first writes of a plan, followed, unless it
      panics, by the remaining writes to the family it cached, is a gauge
      step for the whole plan: only the first write can register a family
      or panic. */
    lemma GaugeStepThen(s0: Caches, s1: Caches, s2: Caches, name: string, first: seq<Setting>,
                        rest: seq<Setting>, plan: seq<Setting>, config: map<string, string>, panicked: bool)
      requires first != [] && plan == first + rest
      requires GaugeStep(s0, s1, name, first, config, panicked) == true
      requires panicked ==> s2 == s1
      requires !panicked ==> Key(name) in s1.gauges
      requires !panicked ==> s2.gauges == s1.gauges && s2.attempts == s1.attempts
      requires !panicked ==> s2.customMetrics == s1.customMetrics && s2.held == s1.held
      requires !panicked ==> s2.written == s1.written + Writes(rest, s1.gauges[Key(name)], config)
      ensures GaugeStep(s0, s2, name, plan, config, panicked)
    {
      assert plan[0] == first[0];
      if !panicked {
        var vec := s1.gauges[Key(name)];
        WritesAppend(first, rest, vec, config);
        AppendAssoc(s0.written, Writes(first, vec, config), Writes(rest, vec, config));
      }
    }

    /** A counter, gauge or float gauge: one write of its value under the
      extra labels. */
    method PublishValue(name: string, extra: map<string, string>, metric: Metric, value: real)
      returns (panicked: bool)
      requires Valid()
      requires GaugePlan(metric, extra) == [Setting(extra, value)]
      modifies this`gauges, this`written, promRegistry
      ensures Valid()
      ensures GaugeStep(old(State()), State(), name, GaugePlan(metric, extra), labels, panicked) == true
    {
      panicked := WriteGauge(name, Setting(extra, value));
    }

    /** The histogram case: the last sample, when there is one, as a gauge
      write under the extra labels, then the histogram with the histogram
      buckets. */
    method PublishHistogram(name: string, extra: map<string, string>, h: HistogramSnapshot)
      returns (panicked: bool)
      requires Valid()
      modifies this`gauges, this`written, this`customMetrics, this`held, this`owner, promRegistry, customMetrics.Values
      ensures Valid()
      ensures Key(name) in customMetrics && Key(name) !in old(customMetrics) ==> fresh(customMetrics[Key(name)])
      ensures Published(old(State()), State(), name, extra, Histogram(h), old(labels), old(histogramBuckets), panicked) == true
    {
      ghost var s0, config := State(), labels;
      var buckets := histogramBuckets;
      var gaugePanicked := PublishLastSample(name, extra, h);
      ghost var s1 := State();
      assert customMetrics == old(customMetrics);
      panicked := gaugePanicked;
      if !gaugePanicked {
        panicked := StoreSnapshot(name, Histogram(h), buckets, extra);
      }
      PublishedHistogram(s0, s1, State(), name, extra, h, config, buckets, gaugePanicked, panicked);
    }

    /** The gauge write of the histogram case: the last sample, when there
      is one, under the extra labels. */
    method PublishLastSample(name: string, extra: map<string, string>, h: HistogramSnapshot)
      returns (panicked: bool)
      requires Valid()
      modifies this`gauges, this`written, promRegistry
      ensures Valid()
      ensures GaugeStep(old(State()), State(), name, GaugePlan(Histogram(h), extra), labels, panicked) == true
    {
      var samples := h.samples;
      panicked := false;
      if |samples| > 0 {
        var lastSample := samples[|samples| - 1];
        panicked := PublishValue(name, extra, Histogram(h), lastSample as real);
      }
    }

    /** The histogram step of the dispatch: `histogramFromNameAndMetric`,
      seen through the caches. */
    method StoreSnapshot(name: string, metric: Metric, buckets: seq<real>, extra: map<string, string>)
      returns (panicked: bool)
      requires Valid()
      requires UpdatesHistogram(metric)
      modifies this`customMetrics, this`held, this`owner, promRegistry, customMetrics.Values
      ensures Valid()
      ensures Key(name) in customMetrics && Key(name) !in old(customMetrics) ==> fresh(customMetrics[Key(name)])
      ensures HistogramStep(old(State()), State(), name, metric, buckets, labels, extra, panicked) == true
    {
      panicked := HistogramFromNameAndMetric(name, metric, buckets, extra);
    }

    /** The meter case. The writes touch no collector, so the collector
      invariant survives them. */
    method PublishMeter(name: string, extra: map<string, string>, m: MeterSnapshot)
      returns (panicked: bool)
      requires Valid()
      modifies this`gauges, this`written, promRegistry
      ensures Valid()
      ensures GaugeStep(old(State()), State(), name, GaugePlan(Meter(m), extra), labels, panicked) == true
    {
      panicked := WriteMeterGauges(name, extra, m);
    }

    /** The writes of the meter case: one per rate unit, the shared
      extra-label map relabelled before each. Only the first write can
      panic, since it caches the family the others reuse. */
    method WriteMeterGauges(name: string, extra: map<string, string>, m: MeterSnapshot)
      returns (panicked: bool)
      modifies this`gauges, this`written, promRegistry
      ensures GaugeStep(old(State()), State(), name, GaugePlan(Meter(m), extra), labels, panicked) == true
    {
      ghost var s0 := State();
      var first := Setting(Unit(extra, "rate1"), m.rate1);
      ghost var rest := [ Setting(Unit(extra, "rate5"), m.rate5),
                          Setting(Unit(extra, "rate15"), m.rate15),
                          Setting(Unit(extra, "mean"), m.rateMean),
                          Setting(Unit(extra, "count"), m.count as real) ];
      assert GaugePlan(Meter(m), extra) == [first] + rest;
      panicked := WriteGauge(name, first);
      ghost var s1 := State();
      if !panicked {
        // The family is cached now, so the remaining writes reuse it and
        // neither register nor panic.
        var extraLabels, cachedPanicked;
        extraLabels := Unit(extra, "rate5");
        cachedPanicked := GaugeFromNameAndValue(name, m.rate5, extraLabels);
        assert !cachedPanicked;
        extraLabels := Unit(extra, "rate15");
        cachedPanicked := GaugeFromNameAndValue(name, m.rate15, extraLabels);
        assert !cachedPanicked;
        extraLabels := Unit(extra, "mean");
        cachedPanicked := GaugeFromNameAndValue(name, m.rateMean, extraLabels);
        assert !cachedPanicked;
        extraLabels := Unit(extra, "count");
        cachedPanicked := GaugeFromNameAndValue(name, m.count as real, extraLabels);
        assert !cachedPanicked;
        ghost var vec := gauges[Key(name)];
        AppendFour(s1.written,
                   GaugeWrite(vec, labels + Unit(extra, "rate5"), m.rate5),
                   GaugeWrite(vec, labels + Unit(extra, "rate15"), m.rate15),
                   GaugeWrite(vec, labels + Unit(extra, "mean"), m.rateMean),
                   GaugeWrite(vec, labels + Unit(extra, "count"), m.count as real));
        WritesFour(rest, vec, labels);
      }
      GaugeStepThen(s0, s1, State(), name, [first], rest, GaugePlan(Meter(m), extra), labels, panicked);
    }

    /** The timer case: the histogram with the timer buckets under the
      extra labels as they come, then one gauge write per rate unit. */
    method PublishTimer(name: string, extra: map<string, string>, t: TimerSnapshot)
      returns (panicked: bool)
      requires Valid()
      modifies this`gauges, this`written, this`customMetrics, this`held, this`owner, promRegistry, customMetrics.Values
      ensures Valid()
      ensures Key(name) in customMetrics && Key(name) !in old(customMetrics) ==> fresh(customMetrics[Key(name)])
      ensures Published(old(State()), State(), name, extra, Timer(t), old(labels), old(timerBuckets), panicked) == true
    {
      ghost var s0, config := State(), labels;
      var buckets := timerBuckets;
      var histogramPanicked := StoreSnapshot(name, Timer(t), buckets, extra);
      ghost var s1 := State();
      panicked := histogramPanicked;
      if !histogramPanicked {
        panicked := PublishTimerGauges(name, extra, t);
        assert customMetrics == s1.customMetrics;
      }
      PublishedTimer(s0, s1, State(), name, extra, t, config, buckets, histogramPanicked, panicked);
    }

    /** The gauge writes of the timer case. They touch no collector, so
      the collector invariant survives them. */
    method PublishTimerGauges(name: string, extra: map<string, string>, t: TimerSnapshot)
      returns (panicked: bool)
      requires Valid()
      modifies this`gauges, this`written, promRegistry
      ensures Valid()
      ensures GaugeStep(old(State()), State(), name, GaugePlan(Timer(t), extra), labels, panicked) == true
    {
      panicked := WriteTimerGauges(name, extra, t);
    }

    /** The timer's rate writes, then its statistics writes. */
    method WriteTimerGauges(name: string, extra: map<string, string>, t: TimerSnapshot)
      returns (panicked: bool)
      modifies this`gauges, this`written, promRegistry
      ensures GaugeStep(old(State()), State(), name, GaugePlan(Timer(t), extra), labels, panicked) == true
    {
      ghost var s0 := State();
      panicked := PublishTimerRates(name, extra, t);
      ghost var s1 := State();
      TimerPlan(t, extra);
      if !panicked {
        PublishTimerStats(name, extra, t);
        GaugeStepThen(s0, s1, State(), name, TimerRates(t, extra), TimerStats(t, extra), GaugePlan(Timer(t), extra),
                      labels, false);
      } else {
        GaugeStepThen(s0, s1, s1, name, TimerRates(t, extra), TimerStats(t, extra), GaugePlan(Timer(t), extra),
                      labels, true);
      }
    }

    /** The timer's rate and count writes. Only the first can register
      a family or panic. */
    method PublishTimerRates(name: string, extra: map<string, string>, t: TimerSnapshot)
      returns (panicked: bool)
      modifies this`gauges, this`written, promRegistry
      ensures GaugeStep(old(State()), State(), name, TimerRates(t, extra), labels, panicked) == true
    {
      ghost var s0 := State();
      var first := Setting(Unit(extra, "rate1"), t.rate1);
      ghost var rest := [ Setting(Unit(extra, "rate5"), t.rate5),
                          Setting(Unit(extra, "rate15"), t.rate15),
                          Setting(Unit(extra, "rate_mean"), t.rateMean),
                          Setting(Unit(extra, "count"), t.dist.count as real) ];
      assert TimerRates(t, extra) == [first] + rest;
      panicked := WriteGauge(name, first);
      ghost var s1 := State();
      if !panicked {
        // The family is cached now, so the remaining writes reuse it and
        // neither register nor panic.
        var extraLabels, cachedPanicked;
        extraLabels := Unit(extra, "rate5");
        cachedPanicked := GaugeFromNameAndValue(name, t.rate5, extraLabels);
        assert !cachedPanicked;
        extraLabels := Unit(extra, "rate15");
        cachedPanicked := GaugeFromNameAndValue(name, t.rate15, extraLabels);
        assert !cachedPanicked;
        extraLabels := Unit(extra, "rate_mean");
        cachedPanicked := GaugeFromNameAndValue(name, t.rateMean, extraLabels);
        assert !cachedPanicked;
        extraLabels := Unit(extra, "count");
        cachedPanicked := GaugeFromNameAndValue(name, t.dist.count as real, extraLabels);
        assert !cachedPanicked;
        ghost var vec := gauges[Key(name)];
        AppendFour(s1.written,
                   GaugeWrite(vec, labels + Unit(extra, "rate5"), t.rate5),
                   GaugeWrite(vec, labels + Unit(extra, "rate15"), t.rate15),
                   GaugeWrite(vec, labels + Unit(extra, "rate_mean"), t.rateMean),
                   GaugeWrite(vec, labels + Unit(extra, "count"), t.dist.count as real));
        WritesFour(rest, vec, labels);
      }
      GaugeStepThen(s0, s1, State(), name, [first], rest, TimerRates(t, extra), labels, panicked);
    }

    /** The timer's remaining writes, once its family is cached: none can
      panic, and none changes the cache. */
    method PublishTimerStats(name: string, extra: map<string, string>, t: TimerSnapshot)
      requires Key(name) in gauges
      modifies this`gauges, this`written, promRegistry
      ensures gauges == old(gauges) && promRegistry.attempts == old(promRegistry.attempts)
      ensures written == old(written) + Writes(TimerStats(t, extra), gauges[Key(name)], labels)
    {
      ghost var before := written;
      var extraLabels, panicked;
      extraLabels := Unit(extra, "sum");
      panicked := GaugeFromNameAndValue(name, t.dist.sum as real, extraLabels);
      assert !panicked;
      extraLabels := Unit(extra, "max");
      panicked := GaugeFromNameAndValue(name, t.max as real, extraLabels);
      assert !panicked;
      extraLabels := Unit(extra, "min");
      panicked := GaugeFromNameAndValue(name, t.min as real, extraLabels);
      assert !panicked;
      extraLabels := Unit(extra, "mean");
      panicked := GaugeFromNameAndValue(name, t.mean, extraLabels);
      assert !panicked;
      extraLabels := Unit(extra, "variance");
      panicked := GaugeFromNameAndValue(name, t.variance, extraLabels);
      assert !panicked;
      extraLabels := Unit(extra, "std_dev");
      panicked := GaugeFromNameAndValue(name, t.stdDev, extraLabels);
      assert !panicked;
      ghost var vec := gauges[Key(name)];
      TimerStatsWrites(t, extra, vec, labels);
      AppendSix(before,
                GaugeWrite(vec, labels + Unit(extra, "sum"), t.dist.sum as real),
                GaugeWrite(vec, labels + Unit(extra, "max"), t.max as real),
                GaugeWrite(vec, labels + Unit(extra, "min"), t.min as real),
                GaugeWrite(vec, labels + Unit(extra, "mean"), t.mean),
                GaugeWrite(vec, labels + Unit(extra, "variance"), t.variance),
                GaugeWrite(vec, labels + Unit(extra, "std_dev"), t.stdDev));
    }

    /** The type switch of `UpdatePrometheusMetricsOnce` for one metric whose
      name and extra labels are already extracted. A panic ends it. */
    method PublishMetric(name: string, extra: map<string, string>, metric: Metric)
      returns (panicked: bool)
      requires Valid()
      modifies this`gauges, this`written, this`customMetrics, this`held, this`owner, promRegistry, customMetrics.Values
      ensures Valid()
      ensures Key(name) in customMetrics && Key(name) !in old(customMetrics) ==> fresh(customMetrics[Key(name)])
      ensures Published(old(State()), State(), name, extra, metric, old(labels), old(BucketsFor(metric)), panicked) == true
    {
      ghost var s0 := State();
      match metric
      case Counter(count) =>
        panicked := PublishValue(name, extra, metric, count as real);
        PublishedByGauges(s0, State(), name, extra, metric, labels, BucketsFor(metric), panicked);
      case Gauge(value) =>
        panicked := PublishValue(name, extra, metric, value as real);
        PublishedByGauges(s0, State(), name, extra, metric, labels, BucketsFor(metric), panicked);
      case GaugeFloat64(value) =>
        panicked := PublishValue(name, extra, metric, value);
        PublishedByGauges(s0, State(), name, extra, metric, labels, BucketsFor(metric), panicked);
      case Histogram(h) =>
        panicked := PublishHistogram(name, extra, h);
      case Meter(m) =>
        panicked := PublishMeter(name, extra, m);
        PublishedByGauges(s0, State(), name, extra, metric, labels, BucketsFor(metric), panicked);
      case Timer(t) =>
        panicked := PublishTimer(name, extra, t);
      case Unknown =>
        panicked := false;
        PublishedByGauges(s0, State(), name, extra, metric, labels, BucketsFor(metric), panicked);
    }

    /** The body of the registry walk of `UpdatePrometheusMetricsOnce` for
      one entry: the name rewrite, then the type switch on the rewritten
      name and the labels taken out of it. */
    method PublishEntry(name: string, metric: Metric) returns (panicked: bool)
      requires Valid()
      modifies this`gauges, this`written, this`customMetrics, this`held, this`owner, promRegistry, customMetrics.Values
      ensures Valid()
      ensures forall k :: k in customMetrics && k !in old(customMetrics) ==> fresh(customMetrics[k])
      ensures EntryPublished(old(State()), State(), name, metric, old(labels), old(histogramBuckets),
                             old(timerBuckets), panicked) == true
    {
      var extracted := ExtractNameLabels(name);
      match extracted
      case Panic(_) =>
        panicked := true;
      case Ok(e) =>
        panicked := PublishMetric(e.name, e.labels, metric);
    }

    /** `UpdatePrometheusMetricsOnce`: every entry of the registry, in the
      order given, until one panics. The walk reaches `done` entries and
      leaves the states `trace` between them; all entries are reached
      unless one panics. */
    method UpdatePrometheusMetricsOnce(entries: seq<(string, Metric)>)
      returns (panicked: bool, done: nat, ghost trace: seq<Caches>)
      requires Valid()
      modifies this`gauges, this`written, this`customMetrics, this`held, this`owner, promRegistry, customMetrics.Values
      ensures Valid()
      ensures forall k :: k in customMetrics && k !in old(customMetrics) ==> fresh(customMetrics[k])
      ensures done <= |entries| && (!panicked ==> done == |entries|)
      ensures |trace| == done + 1 && trace[0] == old(State()) && trace[done] == State()
      ensures Walked(trace, entries[..done], old(labels), old(histogramBuckets), old(timerBuckets), panicked) == true
      ensures Grown(old(State()), State())
    {
      ghost var config, hb, tb := labels, histogramBuckets, timerBuckets;
      panicked, done, trace := false, 0, [State()];
      while done < |entries| && !panicked
        invariant Valid()
        invariant forall k :: k in customMetrics && k !in old(customMetrics) ==> fresh(customMetrics[k])
        invariant forall k :: k in old(customMetrics) ==> k in customMetrics && customMetrics[k] == old(customMetrics)[k]
        invariant done <= |entries| && |trace| == done + 1
        invariant trace[0] == old(State()) && trace[done] == State()
        invariant Walked(trace, entries[..done], config, hb, tb, panicked) == true
        invariant Grown(old(State()), State())
        invariant labels == config && histogramBuckets == hb && timerBuckets == tb
        decreases |entries| - done
      {
        ghost var before := State();
        var (name, metric) := entries[done];
        panicked := PublishEntry(name, metric);
        EntryGrows(before, State(), name, metric, config, hb, tb, panicked);
        GrownTransitive(old(State()), before, State());
        WalkedStep(trace, entries, done, State(), config, hb, tb, panicked);
        trace := trace + [State()];
        done := done + 1;
      }
    }

    /** The registry walk over `entries` left the states `trace`, one more
      than the entries: each entry is published from the state the one
      before it left, and only the last may panic, as `panicked` says. */
    ghost predicate Walked(trace: seq<Caches>, entries: seq<(string, Metric)>, config: map<string, string>,
                           histogramBuckets: seq<real>, timerBuckets: seq<real>, panicked: bool)
      decreases |entries|
    {
      && |trace| == |entries| + 1
      && if entries == [] then !panicked
         else
           var n := |entries| - 1;
           && Walked(trace[..n + 1], entries[..n], config, histogramBuckets, timerBuckets, false)
           && EntryPublished(trace[n], trace[n + 1], entries[n].0, entries[n].1, config,
                             histogramBuckets, timerBuckets, panicked)
    }

    /** One more entry published from the last state extends a walk that
      has not panicked. */
    lemma WalkedStep(trace: seq<Caches>, entries: seq<(string, Metric)>, done: nat, after: Caches,
                     config: map<string, string>, histogramBuckets: seq<real>, timerBuckets: seq<real>,
                     panicked: bool)
      requires done < |entries| && |trace| == done + 1
      requires Walked(trace, entries[..done], config, histogramBuckets, timerBuckets, false) == true
      requires EntryPublished(trace[done], after, entries[done].0, entries[done].1, config,
                              histogramBuckets, timerBuckets, panicked) == true
      ensures Walked(trace + [after], entries[..done + 1], config, histogramBuckets, timerBuckets, panicked)
    {
      assert (trace + [after])[..done + 1] == trace;
      assert entries[..done + 1][..done] == entries[..done];
    }

    lemma EntryGrows(before: Caches, after: Caches, name: string, metric: Metric,
                     config: map<string, string>, histogramBuckets: seq<real>, timerBuckets: seq<real>,
                     panicked: bool)
      requires EntryPublished(before, after, name, metric, config, histogramBuckets, timerBuckets, panicked) == true
      ensures Grown(before, after)
    {
      var buckets := if metric.Histogram? then histogramBuckets else timerBuckets;
      match ExtractNameLabels(name)
      case Panic(_) =>
      case Ok(e) => PublishedGrows(before, after, e.name, e.labels, metric, config, buckets, panicked);
    }

    /** An entry panics only for one of two causes: its name has the broker
      or topic marker without the full separator, or the registry refused
      the last registration the entry asked for. */
    lemma EntryPanicCause(before: Caches, after: Caches, name: string, metric: Metric,
                          config: map<string, string>, histogramBuckets: seq<real>, timerBuckets: seq<real>,
                          panicked: bool)
      requires EntryPublished(before, after, name, metric, config, histogramBuckets, timerBuckets, panicked) == true
      requires panicked
      ensures || ExtractNameLabels(name).Panic?
              || (&& |before.attempts| < |after.attempts|
                  && !Accepted(promRegistry.decide, after.attempts[..|after.attempts| - 1],
                               after.attempts[|after.attempts| - 1]))
    {
      var buckets := if metric.Histogram? then histogramBuckets else timerBuckets;
      match ExtractNameLabels(name)
      case Panic(_) =>
      case Ok(e) =>
        PublishedAnswered(before, after, e.name, e.labels, metric, config, buckets, panicked);
    }

    /** A metric of a type the switch does not know is skipped: once its
      name is rewritten without a panic, nothing changes. */
    lemma UnknownSkipped(before: Caches, after: Caches, name: string,
                         config: map<string, string>, histogramBuckets: seq<real>, timerBuckets: seq<real>,
                         panicked: bool)
      requires EntryPublished(before, after, name, Unknown, config, histogramBuckets, timerBuckets, panicked) == true
      requires ExtractNameLabels(name).Ok?
      ensures !panicked && after == before
    {
      var e := ExtractNameLabels(name).value;
      assert GaugeStep(before, after, e.name, [], config, panicked);
      assert after.attempts == before.attempts;
    }

    /** Once the gauge family and, for a histogram or timer, the collector
      are cached at the rewritten key, publishing the entry again makes no
      registration and cannot panic. */
    lemma CachedEntryRegistersNothing(before: Caches, after: Caches, name: string, metric: Metric,
                                      config: map<string, string>, histogramBuckets: seq<real>,
                                      timerBuckets: seq<real>, panicked: bool)
      requires EntryPublished(before, after, name, metric, config, histogramBuckets, timerBuckets, panicked) == true
      requires ExtractNameLabels(name).Ok?
      requires Key(ExtractNameLabels(name).value.name) in before.gauges
      requires UpdatesHistogram(metric) ==> Key(ExtractNameLabels(name).value.name) in before.customMetrics
      ensures !panicked && after.attempts == before.attempts
    {
      var e := ExtractNameLabels(name).value;
      var buckets := if metric.Histogram? then histogramBuckets else timerBuckets;
      PublishedAnswered(before, after, e.name, e.labels, metric, config, buckets, panicked);
      assert Requests(before, e.name, e.labels, metric, config) == [];
    }
  }
}
