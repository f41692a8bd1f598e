# go-metrics to Prometheus exporter, modelled in Dafny

This project models the exporter in `prometheusmetrics.go`. The exporter
walks a go-metrics registry and turns each metric it finds into Prometheus
series:

- counters and gauges become one gauge write;
- meters and timers become one gauge write per rate unit, labelled `rate_unit`;
- histograms and timers also become a constant histogram, which a per-key
  `CustomCollector` holds and hands to every scrape.

The exporter caches one `GaugeVec` per key and one collector per key. The
key is `namespace_subsystem_name` on the raw strings. The exported names
are flattened: the characters space, `.`, `-`, `=` and `/` become `_`.
Kafka client metric names of the form `…-for-broker-B…` and `…-for-topic-T…`
are rewritten first: the broker or topic is moved into a `for_broker` or
`for_topic` label.

Modules:

- `Names`: `flattenKey` and `createKey`.
- `Extract`: `strings.Index`, `strings.Contains` and `strings.Split`, and
  the broker/topic rewrite built on them.
- `Source`: the go-metrics kinds and their snapshots.
- `Prom`: the Prometheus client library, kept abstract.
  - A `GaugeVec` is a value.
  - A `Registerer` is an object that records every registration and answers
    it through a fixed decision function of its history.
  - `NewConstHistogram` refuses repeated label names and mismatched lengths.
- `Collector`: the `CustomCollector` class.
- `Labels`: the label-merging loops and the bucket loop.
- `Exporter`: the `PrometheusConfig` class, its two caches and the type
  switch.

Some state exists only in the proof, as ghost fields of `PrometheusConfig`:

- `written`, the log of every `g.With(labels).Set(v)` in order;
- `held`, what each cached collector holds.

A panic in the source is a returned `panicked` flag. After a panic nothing
more happens.

A malformed broker or topic name does not degrade gracefully. The code
indexes `split[1]` without checking the length of the split (lines 213-215
and 218-220). A name that contains `for-broker` but not `-for-broker-`
splits into one piece, so the index panics; the same holds for
`for-topic`. The model follows the code: see `Extract.RewriteForPanics`.

Two more consequences of the rewrite, which the model also follows:

- The broker id leaves the name, so the metrics of every broker share one
  name and one cache key (`Extract.BrokersShareName`). For gauges the
  `for_broker` label keeps their series apart. A histogram or timer has
  only one `CustomCollector` per key, and each update stores its histogram
  there in place of the last (lines 187-197). A scrape therefore shows
  only the histogram of the broker published last in the walk.
- The topic rule runs on the name the broker rule has already cut. In
  `a-for-broker-1-for-topic-t` the topic stays inside the broker id:
  `for_broker` is `1-for-topic-t` and no `for_topic` label is set
  (`Extract.TopicInsideBrokerId`).

The registry's answers are not modelled concretely. Every registration is
recorded in order, and its answer is a fixed function of the earlier
registrations and the request. The contracts of the publishing steps say
exactly which registrations a step makes, in which order, and what it
caches:

- a gauge write registers the family of its labels whenever the key has
  no family cached, and caches the family the registry answers with: the
  new one, or the existing one when the registry reports it already
  registered;
- a histogram update registers a new collector whenever the key has none
  cached, and caches it only when the registry takes it;
- a histogram asks for its family and then its collector, a timer for its
  collector and then its family;
- the registry takes every request made but the last; the step panics
  exactly when the last one is refused, and the requests after it are not
  made.

## Model

| member | source | states |
|---|---|---|
| Names.ReplaceAll | prometheusmetrics.go:75 | a single-character `strings.Replace(…, -1)` keeps the length and replaces every occurrence of the character and nothing else |
| Names.FlattenKey | prometheusmetrics.go:74-81 | the flattened name has the same length; each disallowed character becomes `_`, every other character is kept, and no disallowed character remains |
| Names.FlattenKeyIdempotent | prometheusmetrics.go:74-81 | flattening a flattened name changes nothing |
| Names.FlattenKeyKeepsCleanNames | prometheusmetrics.go:74-81 | a name with no disallowed character is exported unchanged |
| Names.FlattenKeyCollision | prometheusmetrics.go:74-81 | two names flatten alike if and only if they have the same length and differ only where both hold a disallowed character or `_` |
| Names.CreateKey | prometheusmetrics.go:83-85 | the key is the raw namespace, `_`, the subsystem, `_`, then the raw name, so it has their length plus two |
| Names.CreateKeyInjective | prometheusmetrics.go:83-85 | under one configuration, distinct metric names never share a cache key |
| Names.KeyFinerThanExportedName | prometheusmetrics.go:99-108 | `a.b` and `a_b` are cached under different keys although both are exported as `a_b` |
| Extract.IndexOf | prometheusmetrics.go:211-212 | the index found leaves room for the whole separator |
| Extract.IndexOfOccurs | prometheusmetrics.go:211-212 | what the search finds is an occurrence |
| Extract.IndexOfFirst | prometheusmetrics.go:211-212 | the search finds an occurrence at or before every occurrence: it is the first one, and it answers none only when there is none |
| Extract.Contains | prometheusmetrics.go:211 | reference definition of `strings.Contains` on a non-empty substring: the search for its first occurrence finds one; `ContainsIffOccurs` states its meaning |
| Extract.ContainsIffOccurs | prometheusmetrics.go:211 | `strings.Contains` holds exactly when the substring occurs somewhere |
| Extract.Split | prometheusmetrics.go:212 | `strings.Split` gives at least one piece |
| Extract.SplitJoin | prometheusmetrics.go:212 | joining the pieces with the separator gives the name back |
| Extract.SplitPiecesFree | prometheusmetrics.go:212 | no piece of the split contains the separator |
| Extract.SplitSecondPiece | prometheusmetrics.go:212-214 | with the separator first at `i`, the first piece is the name up to `i`; the second starts right after the separator, holds no occurrence of it, and is followed by the next occurrence or the end of the name |
| Extract.PieceAtUnique | prometheusmetrics.go:212-214 | only one piece can stand at a given start, so the second piece, and with it the label, is fully determined |
| Extract.ExtractPassThrough | prometheusmetrics.go:210-220 | a name that mentions neither broker nor topic is published as it is, with no extra labels |
| Extract.RewriteForPanics | prometheusmetrics.go:211-219 | one rewrite step panics if and only if the name contains the marker but not the full separator |
| Extract.RewriteForWithoutSeparator | prometheusmetrics.go:211-219 | without the separator a step either panics or leaves the name and labels unchanged |
| Extract.RewriteForCut | prometheusmetrics.go:211-219 | with the separator first at `i`, the step succeeds; the new name is the text before `i` plus `-for-broker` or `-for-topic`; the label gets the text from right after the separator up to the next separator or the end, which holds no separator; no other label changes |
| Extract.RewriteFor | prometheusmetrics.go:211-219 | one rewrite step that does not panic sets at most its own label and keeps every other label with its value |
| Extract.ExtractNameLabels | prometheusmetrics.go:210-220 | the labels taken out of a name are at most `for_broker` and `for_topic` |
| Extract.BrokerRewrite | prometheusmetrics.go:210-220 | a one-letter base (not `-` or `t`), the broker separator and an id without a `b` are rewritten to the base plus `-for-broker`, with the whole id, dashes and topic marker included, as the only label `for_broker` |
| Extract.BrokersShareName | prometheusmetrics.go:210-214 | `x-for-broker-1` and `x-for-broker-2` are both published as `x-for-broker`, so they share one cache key and differ only in the `for_broker` label |
| Extract.TopicInsideBrokerId | prometheusmetrics.go:210-220 | `a-for-broker-1-for-topic-t` is published as `a-for-broker` with `for_broker` = `1-for-topic-t` and no `for_topic` label |
| Source.Int64ToUint64 | prometheusmetrics.go:146 | `uint64` of an `int64` count keeps a non-negative value and wraps a negative one to the top of the unsigned range |
| Source.TypeName | prometheusmetrics.go:148-154 | the kind suffix is non-empty and is `histogram` exactly for a Histogram, so a Histogram and a Timer of the same name get different suffixes |
| Source.Percentiles | prometheusmetrics.go:145 | one percentile value per requested bucket, in the same order |
| Prom.NewConstHistogram | prometheusmetrics.go:187-193 | the constant histogram is built exactly when the label names repeat none and there is one value per name, and then it holds exactly the descriptor, count, sum, buckets and values given |
| Prom.Registerer.Register | prometheusmetrics.go:110 | every registration is recorded, and its answer depends only on the earlier registrations and the request |
| Labels.AddLabels | prometheusmetrics.go:91-98 | one label loop overlays the map onto the label set and appends each of its names once |
| Labels.GaugeLabels | prometheusmetrics.go:89-98 | the write's label set is the config labels overlaid by the extra labels; the name list holds every config name and every extra name, so a shared name appears twice |
| Labels.Entries | prometheusmetrics.go:167-174 | one histogram label loop lists every name of the map once, each value at its name's position |
| Labels.HistogramLabels | prometheusmetrics.go:164-174 | the config labels come first, then the extra labels; each value is at its name's position in the lists |
| Labels.PairedValues | prometheusmetrics.go:164-174 | with disjoint label maps, every listed value is its name's value in the merged map |
| Labels.DistinctIffDisjoint | prometheusmetrics.go:164-193 | the histogram's label names repeat none if and only if the config and extra labels share no name |
| Labels.ToUint64 | prometheusmetrics.go:161 | `uint64` of an in-range percentile truncates it toward zero |
| Labels.BucketVals | prometheusmetrics.go:159-162 | the bucket loop builds the map that writes each bucket's truncated percentile in list order |
| Labels.BucketMap | prometheusmetrics.go:159-162 | the reference map of the bucket loop, each bucket written in turn with its truncated percentile, has only configured buckets as keys |
| Labels.BucketMapKeys | prometheusmetrics.go:159-162 | the bucket map has exactly the configured buckets as keys |
| Labels.BucketMapLastWins | prometheusmetrics.go:159-162 | a bucket listed twice keeps the value of its last position |
| Labels.BucketMapMonotone | prometheusmetrics.go:159-162 | with increasing buckets and non-decreasing in-range percentiles, a larger bucket never has a smaller value; the values are truncated percentiles, not cumulative counts |
| Collector.CustomCollector.constructor | prometheusmetrics.go:306-310 | a new collector holds no metric |
| Collector.CustomCollector.Collect | prometheusmetrics.go:312-319 | a scrape sends the held metric, exactly when there is one, and nothing else |
| Collector.CustomCollector.Describe | prometheusmetrics.go:321-323 | no descriptor is advertised |
| Collector.ReplayAfterUpdate | prometheusmetrics.go:195 | after the publisher stores a histogram, every scrape sends it and the collector keeps it |
| Exporter.AnsweredOne | prometheusmetrics.go:110-117 | a step that makes exactly one registration panics exactly when the registry refuses it |
| Exporter.AnsweredThen | prometheusmetrics.go:232-292 | two steps, the second taken only when the first does not panic, make the registrations of the first and then those of the second, cut after the first refusal; the registry takes each made but the last, the pair panics exactly when the last is refused, and without a panic all of them are made |
| Exporter.GaugePlan | prometheusmetrics.go:225-293 | reference definition of the gauge writes the type switch makes for one metric, in source order: the value of a counter or gauge, the last sample of a non-empty histogram, a meter's four rates and count and a timer's `TimerRates` then `TimerStats`, each under its rate unit, and nothing for any other kind; `GaugePlanShape`, `PlanUnits`, `PlanKeepsLabels` and `MeterWrites` state its properties |
| Exporter.TimerRates | prometheusmetrics.go:261-274 | reference definition of a timer's first five writes: `rate1`, `rate5`, `rate15`, `rate_mean` and `count`, in order; `TimerUnitsInOrder` and `TimerRatesWrites` state them |
| Exporter.TimerStats | prometheusmetrics.go:276-291 | reference definition of a timer's last six writes: `sum`, `max`, `min`, `mean`, `variance` and `std_dev`, in order; `TimerUnitsInOrder` and `TimerStatsWrites` state them |
| Exporter.GaugePlanShape | prometheusmetrics.go:225-293 | a metric writes no gauge exactly when it is of an unknown kind or a histogram with no samples; a meter writes five gauges, a timer eleven, and any other kind one, under the extra labels as given |
| Exporter.TimerUnitsInOrder | prometheusmetrics.go:261-292 | a timer's rate writes carry `rate1` to `count`, its statistics writes `sum` to `std_dev`, and together all eleven units in order |
| Exporter.PlanKeepsLabels | prometheusmetrics.go:225-292 | every gauge write of a metric carries the extra labels unchanged, apart from `rate_unit` |
| Exporter.PlanUnits | prometheusmetrics.go:239-292 | a meter writes under `rate1`, `rate5`, `rate15`, `mean`, `count`; a timer under `rate1`, `rate5`, `rate15`, `rate_mean`, `count`, `sum`, `max`, `min`, `mean`, `variance`, `std_dev`; in that order |
| Exporter.UnitWins | prometheusmetrics.go:95-98 | the rate unit of a write overrides a config label of the same name |
| Exporter.PlanSeriesDistinct | prometheusmetrics.go:239-292 | the writes one metric makes go to pairwise different label sets, so none overwrites another |
| Exporter.MeterWrites | prometheusmetrics.go:239-255 | a meter's five writes, each value under its rate unit, in order |
| Exporter.TimerRatesWrites | prometheusmetrics.go:261-274 | a timer's rate and count writes, each value under its rate unit, in order |
| Exporter.TimerStatsWrites | prometheusmetrics.go:276-292 | a timer's sum, extreme and moment writes, each value under its rate unit, in order |
| Exporter.PrometheusConfig.NewPrometheusProvider | prometheusmetrics.go:37-54 | a new exporter has empty caches and labels and the default histogram and timer buckets |
| Exporter.PrometheusConfig.WithHistogramBuckets | prometheusmetrics.go:56-59 | sets the histogram buckets and returns the same exporter |
| Exporter.PrometheusConfig.WithTimerBuckets | prometheusmetrics.go:61-64 | sets the timer buckets and returns the same exporter |
| Exporter.PrometheusConfig.WithLabels | prometheusmetrics.go:69-72 | sets the config labels and returns the same exporter |
| Exporter.PrometheusConfig.Key | prometheusmetrics.go:99 | reference definition of the cache key, `createKey` on this exporter's namespace and subsystem; `KeyInjective` states that it tells names apart |
| Exporter.PrometheusConfig.KeyInjective | prometheusmetrics.go:99 | distinct metric names never share a cache key in one exporter |
| Exporter.PrometheusConfig.Opts | prometheusmetrics.go:103-107 | the family's exported name is the flattened name, as long as the raw one and free of disallowed characters; its help text is the raw name |
| Exporter.PrometheusConfig.NewVec | prometheusmetrics.go:103-108 | a new family has those options and one label name per config label and per extra label, a shared name counted twice |
| Exporter.PrometheusConfig.FamilyFor | prometheusmetrics.go:99-120 | a cached family is returned with no registration and no panic; otherwise exactly one registration is made, of the family `NewVec` builds from the label names; the family the registry answers with, the new one or the existing one, is cached at the key and returned; any other answer panics with nothing cached |
| Exporter.PrometheusConfig.GaugeFromNameAndValue | prometheusmetrics.go:87-125 | a cached family is reused with no registration and no panic; otherwise exactly one registration is made, of the family `NewVec` builds; if the registry takes it, that family is cached; if it reports one already registered, the existing family is cached; any other answer panics with nothing cached or written; without a panic, one write of the value under config + extra labels is logged |
| Exporter.PrometheusConfig.BuildHistogram | prometheusmetrics.go:137-193 | a histogram is built exactly when config and extra labels share no name; it has the flattened name with `_histogram` or `_timer`, the wrapped count, the sum, the truncated percentiles as buckets and every label paired with its value |
| Exporter.PrometheusConfig.CollectorFor | prometheusmetrics.go:128-135 | a cached collector is reused with no registration; otherwise a new empty collector is registered once and cached only if that succeeds, and a failure panics with nothing cached |
| Exporter.PrometheusConfig.HistogramFromNameAndMetric | prometheusmetrics.go:127-198 | one collector registration is made exactly when the key has none cached, and the step panics exactly when it is refused; the collector cache at most gains the key; a panic changes nothing; otherwise only the collector at the key changes, to the new histogram, or stays as it was when the label names repeat |
| Exporter.PrometheusConfig.StoreHistogram | prometheusmetrics.go:187-197 | only the collector at the key changes, and only when the histogram is built |
| Exporter.PrometheusConfig.Hold | prometheusmetrics.go:194-196 | storing a histogram in one cached collector changes what no other collector holds |
| Exporter.PrometheusConfig.WriteGauge | prometheusmetrics.go:87-125 | one `gaugeFromNameAndValue` call is a gauge step whose plan is that one write: when no family is cached, the family of the write is registered once, the registry's answer is cached, and the step panics exactly when the answer is an error; when one is cached, nothing is registered and no panic happens; without a panic the write goes to the cached family |
| Exporter.PrometheusConfig.GaugeStepThen | prometheusmetrics.go:239-292 | a gauge step for the first writes of a plan, followed, unless it panics, by the remaining writes to the family it cached, is a gauge step for the whole plan |
| Exporter.PrometheusConfig.PublishValue | prometheusmetrics.go:226-231 | a counter, gauge or float gauge is one write of its value under the extra labels; when no family is cached at the key, the family of that write is registered once, the family the registry answers with is cached, and the step panics exactly when the answer is an error; when one is cached, nothing is registered and no panic happens |
| Exporter.PrometheusConfig.PublishLastSample | prometheusmetrics.go:233-237 | a histogram with samples writes its last sample, registering its family exactly when none is cached, caching the registry's answer and panicking exactly when that is an error; one without samples registers and writes nothing and cannot panic |
| Exporter.PrometheusConfig.PublishHistogram | prometheusmetrics.go:232-238 | the last-sample write, then, unless that panicked, the histogram with the histogram buckets: the family is registered when none is cached and there is a sample, then the collector when none is cached, in that order, stopping at the first refusal; each cache gets what the registry answered, and the step panics exactly when the last registration made is refused |
| Exporter.PrometheusConfig.StoreSnapshot | prometheusmetrics.go:238 | the histogram step changes no gauge and writes nothing; it registers a collector exactly when none is cached, caches it exactly when the registry takes it and panics otherwise, and without a panic leaves the collector at the key holding what publishing the snapshot gives |
| Exporter.PrometheusConfig.PublishMeter | prometheusmetrics.go:239-255 | the meter case, as `WriteMeterGauges` states it, keeping the collector invariant |
| Exporter.PrometheusConfig.WriteMeterGauges | prometheusmetrics.go:239-255 | a meter's five writes in order, all to the family cached at its key; when no family is cached, the family of the first write is registered once, before any write, the registry's answer is cached, and an error panics before any write; when one is cached, nothing is registered and no panic happens |
| Exporter.PrometheusConfig.PublishTimer | prometheusmetrics.go:256-292 | the histogram with the timer buckets first, then, unless that panicked, the eleven gauge writes: the collector is registered when none is cached, then the family when none is cached, in that order, stopping at the first refusal; each cache gets what the registry answered, and the step panics exactly when the last registration made is refused |
| Exporter.PrometheusConfig.PublishTimerGauges | prometheusmetrics.go:261-292 | the gauge half of the timer case, as `WriteTimerGauges` states it, keeping the collector invariant |
| Exporter.PrometheusConfig.WriteTimerGauges | prometheusmetrics.go:261-292 | a timer's eleven writes in order, all to one family: the family of the first write is registered once when none is cached, the registry's answer is cached, and the step panics exactly when it is an error; when one is cached, nothing is registered and no panic happens |
| Exporter.PrometheusConfig.PublishTimerRates | prometheusmetrics.go:261-274 | the first five timer writes in order, all to one family; the family of the first write is registered exactly when none is cached, the registry's answer is cached, and the step panics exactly when it is an error |
| Exporter.PrometheusConfig.PublishTimerStats | prometheusmetrics.go:276-292 | once the family is cached, the last six timer writes in order, with no registration and no change to the cache |
| Exporter.PrometheusConfig.PublishMetric | prometheusmetrics.go:225-293 | the type switch: each kind takes the steps `Published` lists, a histogram its gauge step and then its histogram step, a timer the reverse, any other kind its gauge step alone, the second step only when the first did not panic; an unknown kind writes and registers nothing |
| Exporter.PrometheusConfig.GaugeStep | prometheusmetrics.go:87-125 | the relation every gauge write sequence of the dispatch satisfies: the collectors stay; a panic or an empty plan leaves the log; otherwise the log gains the plan's writes to the family cached at the key; when no family is cached and the plan has a write, the family of the first write is registered once, the registry's answer is cached and an error panics; otherwise nothing is registered or cached and nothing panics |
| Exporter.PrometheusConfig.HistogramStep | prometheusmetrics.go:127-198 | the relation every histogram update of the dispatch satisfies: the gauges and the log stay; a panic changes no collector; otherwise only the collector at the key changes what it holds, to what publishing the snapshot leaves in it; a collector is registered exactly when none is cached, cached exactly when the registry takes it, and a refusal panics |
| Exporter.PrometheusConfig.Published | prometheusmetrics.go:225-293 | the relation one metric's publish satisfies: a histogram's gauge step then, unless it panicked, its histogram step; a timer's histogram step then, unless it panicked, its gauge step; any other kind's gauge step alone |
| Exporter.PrometheusConfig.PublishedByGauges | prometheusmetrics.go:226-231 | a kind with only gauge writes is fully described by its gauge step |
| Exporter.PrometheusConfig.PublishedHistogram | prometheusmetrics.go:232-238 | a histogram is its gauge step followed, unless that panics, by its histogram step |
| Exporter.PrometheusConfig.PublishedTimer | prometheusmetrics.go:256-292 | a timer is its histogram step followed, unless that panics, by its gauge step |
| Exporter.PrometheusConfig.HistogramMid | prometheusmetrics.go:232-238 | the state between a histogram's gauge step and its histogram step is the final gauge cache and log with the first collectors and the history up to the family's registration; the gauge step panics exactly when the histogram panics on a registration that is not a collector's |
| Exporter.PrometheusConfig.TimerMid | prometheusmetrics.go:256-260 | the state between a timer's histogram step and its gauge step is the final collectors with the first gauge cache and log and the history up to the collector's registration |
| Exporter.PrometheusConfig.TimerPanicCause | prometheusmetrics.go:256-260 | a timer's histogram step panics exactly when the timer panics and the last registration it made is a collector's |
| Exporter.PrometheusConfig.PublishedAnswered | prometheusmetrics.go:225-293 | publishing a metric makes exactly the registrations of `Requests` in order (a histogram's family then its collector, a timer's collector then its family, any other kind's family, each only when the key has none cached), cut after the first refusal; the registry takes each made but the last, the metric panics exactly when the last made is refused, and without a panic all of them are made |
| Exporter.PrometheusConfig.PublishedFamily | prometheusmetrics.go:99-120 | when the key has no family cached and the metric writes a gauge: if the family's registration is made, the family the registry answers with is cached at the key and nothing is cached on an error; if it is not made, the gauge cache is unchanged; a timer's family is answered after its collector's registration |
| Exporter.PrometheusConfig.GaugeStepGrows | prometheusmetrics.go:99-125 | a gauge step never drops or replaces a cached family or collector and never rewrites the log or the registry's history |
| Exporter.PrometheusConfig.PublishedGrows | prometheusmetrics.go:99-135 | publishing a metric, panic or not, never drops or replaces a cached family or collector and never rewrites the log |
| Exporter.PrometheusConfig.PublishEntry | prometheusmetrics.go:207-294 | a name the rewrite panics on changes nothing; any other is published, as for `PublishMetric`, under its rewritten name with the extracted labels |
| Exporter.PrometheusConfig.UpdatePrometheusMetricsOnce | prometheusmetrics.go:206-296 | the walk leaves one state per entry reached plus the first; entry `j` is published, as for `PublishEntry`, from state `j` to state `j + 1`; only the last entry reached may panic, every entry is reached unless one panics, and caches and the log only grow |
| Exporter.PrometheusConfig.EntryPublished | prometheusmetrics.go:206-296 | the relation one registry entry satisfies: a name the rewrite panics on changes nothing and panics; any other is published under its rewritten name with the labels taken out of it |
| Exporter.PrometheusConfig.Walked | prometheusmetrics.go:206-296 | the relation the walk satisfies: one state per entry plus the first, each entry published from the state the one before it left, and only the last entry may panic |
| Exporter.PrometheusConfig.WalkedStep | prometheusmetrics.go:207-294 | one more entry published from the last state extends a walk that has not panicked |
| Exporter.PrometheusConfig.EntryGrows | prometheusmetrics.go:206-296 | one registry entry never drops or replaces a cached family or collector and never rewrites the log |
| Exporter.PrometheusConfig.EntryPanicCause | prometheusmetrics.go:207-294 | an entry panics only when its name has a marker without the full separator, or when the registry refused the last registration the entry made |
| Exporter.PrometheusConfig.UnknownSkipped | prometheusmetrics.go:225-293 | an entry of a kind the switch does not know, whose name rewrites without a panic, changes nothing and cannot panic |
| Exporter.PrometheusConfig.CachedEntryRegistersNothing | prometheusmetrics.go:99-135 | once the family and, for a histogram or timer, the collector are cached at the rewritten key, publishing the entry again makes no registration and cannot panic |

## Left out

- `UpdatePrometheusMetrics` (lines 200-204) is an endless loop on a clock tick. Only its body, `UpdatePrometheusMetricsOnce`, is modelled.
- The two mutexes are not modelled. The model is single-threaded, and the unlocked read and write of `customMetrics` at lines 130-134 race with nothing.
- `Registry.Each` becomes the `entries` sequence given to `UpdatePrometheusMetricsOnce`. Its order is whatever the caller supplies.
- Go's map iteration order is left unspecified. Label-name lists are stated as multisets, with values paired to their names.
- The `error` result of `UpdatePrometheusMetricsOnce` is always nil and is not returned.
- A Go panic is a returned flag, and the walk stops there. Recovery by a caller is not modelled.
- The Prometheus client library is abstract:
  - name and label-name syntax checks are not modelled;
  - `Register` answers through an arbitrary decision function of its history;
  - `NewConstHistogram` checks only repeated label names and the value count.
- `g.With(labels)` panics in the client library when the label set does not match the family's label names. For example, a cached family may have been created with other extra labels. This is not modelled: every write is logged.
- `Exporter.PrometheusConfig.GaugeFromNameAndValue` does not model the type assertion on `ExistingCollector`. That assertion panics when the registered collector is not a `GaugeVec`.
- The `default` branch of the inner type switch (lines 155-156) cannot be reached from the dispatch. `histogramFromNameAndMetric` therefore requires a Histogram or Timer.
- Floating point is `real`. Go's `float64` rounding is not modelled.
- `Labels.ToUint64`: the out-of-range conversion of a float to `uint64` is implementation-defined in Go. Here it gives 0.
- Percentiles are a function the snapshot carries. The reservoir sampling and the percentile computation of go-metrics are not modelled.
- Histograms and timers are snapshotted once in the model. The source takes a second snapshot inside `histogramFromNameAndMetric`.
- The in-place `extraLabels["rate_unit"] = …` mutation of the shared map is modelled as a fresh map per write (`Unit`). The shared map is visible only inside the switch case.
- The `Registry` field is not a field of the model: the registry walked is the `entries` parameter. `FlushInterval` is kept, and nothing in the modelled code reads it.
- `prometheusmetrics_test.go:112` expects one unlabelled series for a meter. The code writes every meter value under a `rate_unit` label, and the model follows the code.
- `Exporter.PrometheusConfig.BuildHistogram`: a constant histogram is refused here only for repeated label names or a value count mismatch. `prometheus.NewDesc` also validates the fully qualified name and the label names, and `NewConstHistogram` then fails on a descriptor with an invalid one; that failure is not modelled.
- `Exporter.PrometheusConfig.WithLabels`, `Exporter.PrometheusConfig.WithHistogramBuckets`, `Exporter.PrometheusConfig.WithTimerBuckets`: the Go setters (lines 56-72) store the caller's map or slice itself, so a later change by the caller reaches the next update. The model stores a value, and this aliasing is not captured.
- `Names.KeyFinerThanExportedName`: it shows two keys that export one name. The model does not say what the registry answers when the second family is registered. That answer is left to its decision function. In the Prometheus client the two families differ in help text (the raw name, line 107), so the registration fails with an error other than "already registered", and line 116 panics.
