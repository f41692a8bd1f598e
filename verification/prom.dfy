/** The parts of the Prometheus client library the exporter calls, kept
    abstract: a gauge family is a value that carries its options and label
    names, a registry answers each registration through a decision function
    of its registration history, and a constant histogram is a record whose
    construction fails on repeated label names or a label-value count
    mismatch. */
module Prom {

  import opened Wrappers

  /** `prometheus.GaugeOpts` as the exporter fills it. */
  datatype GaugeOpts = GaugeOpts(namespace: string, subsystem: string, name: string, help: string)

  /** A `GaugeVec`: its options and its variable label names, taken as a
      multiset because the exporter lists them in map-iteration order. */
  datatype GaugeVec = GaugeVec(opts: GaugeOpts, labelNames: multiset<string>)

  /** What is handed to `Register`: a gauge family, or one of the
      exporter's histogram collectors (which describes no metric). */
  datatype Request = RegisterGauge(vec: GaugeVec) | RegisterCollector

  /** The three outcomes the exporter distinguishes. */
  datatype Outcome = Registered | AlreadyRegistered(existing: GaugeVec) | Failed(reason: string)

  /** A `prometheus.Registerer`. Whatever it answers is fixed by `decide`
      from the requests it has seen before and the new request, so every
      registry whose answers depend only on its history is an instance. */
  class Registerer {
    var attempts: seq<Request>
    const decide: (seq<Request>, Request) -> Outcome

    constructor (decide: (seq<Request>, Request) -> Outcome)
      ensures attempts == [] && this.decide == decide
    {
      attempts := [];
      this.decide := decide;
    }

    /** `Register`: records the request and answers it. */
    method Register(r: Request) returns (o: Outcome)
      modifies this
      ensures attempts == old(attempts) + [r]
      ensures o == decide(old(attempts), r)
    {
      o := decide(attempts, r);
      attempts := attempts + [r];
    }
  }

  /** The descriptor of a constant histogram, with the fully qualified
      name kept as its three parts. */
  datatype HistogramDesc = HistogramDesc(
    namespace: string, subsystem: string, name: string, help: string, labelNames: seq<string>)

  /** A constant histogram: count, sum, cumulative bucket counts by upper
      bound, and the values of the descriptor's labels in order. */
  datatype ConstHistogram = ConstHistogram(
    desc: HistogramDesc, count: nat, sum: real, buckets: map<real, nat>, labelValues: seq<string>)

  /** The label names hold no name twice. */
  predicate DistinctNames(names: seq<string>) {
    forall i, j :: 0 <= i < j < |names| ==> names[i] != names[j]
  }

  /** `NewConstHistogram`: fails when the descriptor repeats a label name
      or when the number of label values differs from the number of label
      names; otherwise it holds exactly what it was given. */
  function NewConstHistogram(desc: HistogramDesc, count: nat, sum: real,
                             buckets: map<real, nat>, labelValues: seq<string>): (r: Option<ConstHistogram>)
    ensures r.Some? <==> DistinctNames(desc.labelNames) && |labelValues| == |desc.labelNames|
    ensures r.Some? ==>
      && r.value.desc == desc && r.value.count == count && r.value.sum == sum
      && r.value.buckets == buckets && r.value.labelValues == labelValues
  {
    if DistinctNames(desc.labelNames) && |labelValues| == |desc.labelNames|
    then Some(ConstHistogram(desc, count, sum, buckets, labelValues))
    else None
  }
}
