/** The exporter's own collector for constant histograms: it holds at most
    one metric, replaced wholesale by the publisher, and hands that metric
    to every scrape. */
module Collector {

  import opened Wrappers
  import opened Prom

  class CustomCollector {
    /** The held metric; none until the first successful publish. */
    var metric: Option<ConstHistogram>

    /** `NewCustomCollector`: a collector that holds nothing yet. */
    constructor ()
      ensures metric == None
    {
      metric := None;
    }

    /** `Collect`: sends the held metric, if there is one, and nothing else. */
    method Collect() returns (sent: seq<ConstHistogram>)
      ensures |sent| <= 1
      ensures sent == [] <==> metric.None?
      ensures forall m :: m in sent <==> metric == Some(m)
    {
      sent := [];
      if metric.Some? {
        var val := metric.value;
        sent := sent + [val];
      }
    }

    /** `Describe`: advertises no descriptor. */
    method Describe() returns (described: seq<HistogramDesc>)
      ensures described == []
    {
      described := [];
    }
  }

  /** A collector replays what was last stored in it, once per scrape, and
      scraping leaves it unchanged. */
  method ReplayAfterUpdate(c: CustomCollector, h: ConstHistogram) returns (first: seq<ConstHistogram>, second: seq<ConstHistogram>)
    modifies c
    ensures first == [h] && second == [h]
    ensures c.metric == Some(h)
  {
    c.metric := Some(h);
    first := c.Collect();
    second := c.Collect();
  }
}
