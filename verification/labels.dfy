/** The in-place building steps of the publisher: the label set and label
    names of a gauge write, the paired label names and values of a
    histogram, and the bucket map of a histogram. */
module Labels {

  import opened Prom

  /** Removing a member from a set removes one copy from its multiset. */
  lemma MultisetRemove<T>(s: set<T>, x: T)
    requires x in s
    ensures multiset(s - {x}) + multiset{x} == multiset(s)
  {
    assert s == (s - {x}) + {x};
  }

  /** The label set and the label-name list of `gaugeFromNameAndValue`:
      every config label, then every extra label. The set is the config
      labels overlaid by the extra ones; the list names every config label
      and every extra label, so a name in both appears twice. */
  method GaugeLabels(config: map<string, string>, extra: map<string, string>)
    returns (labels: map<string, string>, names: seq<string>)
    ensures labels == config + extra
    ensures multiset(names) == multiset(config.Keys) + multiset(extra.Keys)
  {
    labels, names := AddLabels(map[], [], config);
    assert labels == config && multiset(names) == multiset(config.Keys);
    labels, names := AddLabels(labels, names, extra);
  }

  /** One loop of `gaugeFromNameAndValue`: each entry of `m`, in an
      unspecified order, is set in the label set and its name appended to
      the name list. */
  method AddLabels(labels0: map<string, string>, names0: seq<string>, m: map<string, string>)
    returns (labels: map<string, string>, names: seq<string>)
    ensures labels == labels0 + m
    ensures multiset(names) == multiset(names0) + multiset(m.Keys)
  {
    labels, names := labels0, names0;
    var rest := m.Keys;
    while rest != {}
      invariant rest <= m.Keys
      invariant labels.Keys == labels0.Keys + (m.Keys - rest)
      invariant forall k :: k in labels ==> labels[k] == if k in m && k !in rest then m[k] else labels0[k]
      invariant multiset(names) + multiset(rest) == multiset(names0) + multiset(m.Keys)
      decreases rest
    {
      var key :| key in rest;
      MultisetRemove(rest, key);
      labels := labels[key := m[key]];
      names := names + [key];
      rest := rest - {key};
    }
  }

  /** One loop of `histogramFromNameAndMetric` over a label map: every
      name once, in an unspecified order, each value at its name's position. */
  method Entries(m: map<string, string>) returns (names: seq<string>, values: seq<string>)
    ensures |names| == |values|
    ensures multiset(names) == multiset(m.Keys)
    ensures forall i :: 0 <= i < |names| ==> names[i] in m && values[i] == m[names[i]]
  {
    names, values := [], [];
    var rest := m.Keys;
    while rest != {}
      invariant rest <= m.Keys
      invariant |names| == |values|
      invariant multiset(names) + multiset(rest) == multiset(m.Keys)
      invariant forall i :: 0 <= i < |names| ==> names[i] in m && values[i] == m[names[i]]
      decreases rest
    {
      var key :| key in rest;
      MultisetRemove(rest, key);
      names, values := names + [key], values + [m[key]];
      rest := rest - {key};
    }
  }

  /** The parallel label-name and label-value lists of
      `histogramFromNameAndMetric`: first the config labels, then the extra
      labels, each value at the position of its name. `split` is where the
      extra labels start. */
  method HistogramLabels(config: map<string, string>, extra: map<string, string>)
    returns (names: seq<string>, values: seq<string>, ghost split: nat)
    ensures |names| == |values| && split <= |names|
    ensures multiset(names) == multiset(config.Keys) + multiset(extra.Keys)
    ensures multiset(names[..split]) == multiset(config.Keys)
    ensures forall i :: 0 <= i < split ==> names[i] in config && values[i] == config[names[i]]
    ensures forall i :: split <= i < |names| ==> names[i] in extra && values[i] == extra[names[i]]
  {
    var configNames, configValues := Entries(config);
    var extraNames, extraValues := Entries(extra);
    names, values := configNames + extraNames, configValues + extraValues;
    split := |configNames|;
    assert names[..split] == configNames;
    forall i | split <= i < |names|
      ensures names[i] in extra && values[i] == extra[names[i]]
    {
      assert names[i] == extraNames[i - split] && values[i] == extraValues[i - split];
    }
  }

  /** With disjoint label maps, a value paired with its name from either
      map is that name's value in the merged map. */
  lemma PairedValues(names: seq<string>, values: seq<string>,
                     config: map<string, string>, extra: map<string, string>, n: nat)
    requires |names| == |values| && n <= |names|
    requires config.Keys !! extra.Keys
    requires forall i :: 0 <= i < n ==> names[i] in config && values[i] == config[names[i]]
    requires forall i :: n <= i < |names| ==> names[i] in extra && values[i] == extra[names[i]]
    ensures forall i :: 0 <= i < |names| ==> names[i] in config + extra && values[i] == (config + extra)[names[i]]
  {
    forall i | 0 <= i < |names|
      ensures names[i] in config + extra && values[i] == (config + extra)[names[i]]
    {
      if i < n {
        assert names[i] !in extra;
      }
    }
  }

  /** A list whose multiset is the sum of two sets' multisets repeats no
      name exactly when the two sets are disjoint. */
  lemma DistinctIffDisjoint(names: seq<string>, a: set<string>, b: set<string>)
    requires multiset(names) == multiset(a) + multiset(b)
    ensures DistinctNames(names) <==> a !! b
  {
    if !(a !! b) {
      var x :| x in a && x in b;
      assert multiset(names)[x] == 2;
      var i, j := TwoCopies(names, x);
    } else {
      forall i, j | 0 <= i < j < |names| ensures names[i] != names[j] {
        if names[i] == names[j] {
          AtLeastTwo(names, i, j);
          assert false;
        }
      }
    }
  }

  /** An element counted twice sits at two positions. */
  lemma {:induction false} TwoCopies(s: seq<string>, x: string) returns (i: nat, j: nat)
    requires multiset(s)[x] >= 2
    ensures i < j < |s| && s[i] == x && s[j] == x
  {
    assert s == [s[0]] + s[1..];
    if s[0] == x {
      assert multiset(s[1..])[x] >= 1;
      var k := IndexIn(s[1..], x);
      i, j := 0, k + 1;
    } else {
      i, j := TwoCopies(s[1..], x);
      i, j := i + 1, j + 1;
    }
  }

  /** An element counted once sits at some position. */
  lemma {:induction false} IndexIn(s: seq<string>, x: string) returns (i: nat)
    requires multiset(s)[x] >= 1
    ensures i < |s| && s[i] == x
  {
    assert x in multiset(s);
    assert x in s;
    i :| 0 <= i < |s| && s[i] == x;
  }

  /** Two positions holding the same element count it twice. */
  lemma AtLeastTwo(s: seq<string>, i: nat, j: nat)
    requires i < j < |s| && s[i] == s[j]
    ensures multiset(s)[s[i]] >= 2
  {
    assert s == s[..i] + [s[i]] + s[i + 1..j] + [s[j]] + s[j + 1..];
  }

  /** `uint64(f)` on a float: truncation toward zero for values in range.
      Out-of-range conversions are implementation-defined in Go; here they
      give 0. */
  function ToUint64(x: real): (n: nat)
    ensures 0.0 <= x < 18446744073709551616.0 ==> n as real <= x < n as real + 1.0
  {
    if 0.0 <= x < 18446744073709551616.0 then x.Floor else 0
  }

  /** The map built by writing `buckets[i] := ToUint64(ps[i])` for each i in
      turn: the reference the bucket loop is proved against. */
  function BucketMap(buckets: seq<real>, ps: seq<real>): (r: map<real, nat>)
    requires |ps| == |buckets|
    ensures forall b :: b in r ==> b in buckets
  {
    if buckets == [] then map[]
    else
      var n := |buckets| - 1;
      BucketMap(buckets[..n], ps[..n])[buckets[n] := ToUint64(ps[n])]
  }

  /** The bucket loop of `histogramFromNameAndMetric`. */
  method BucketVals(buckets: seq<real>, ps: seq<real>) returns (bucketVals: map<real, nat>)
    requires |ps| == |buckets|
    ensures bucketVals == BucketMap(buckets, ps)
  {
    bucketVals := map[];
    for ii := 0 to |buckets|
      invariant bucketVals == BucketMap(buckets[..ii], ps[..ii])
    {
      assert buckets[..ii + 1][..ii] == buckets[..ii] && ps[..ii + 1][..ii] == ps[..ii];
      bucketVals := bucketVals[buckets[ii] := ToUint64(ps[ii])];
    }
    assert buckets[..|buckets|] == buckets && ps[..|ps|] == ps;
  }

  /** The keys are exactly the configured buckets. */
  lemma {:induction false} BucketMapKeys(buckets: seq<real>, ps: seq<real>)
    requires |ps| == |buckets|
    ensures BucketMap(buckets, ps).Keys == set i | 0 <= i < |buckets| :: buckets[i]
  {
    if buckets != [] {
      var n := |buckets| - 1;
      BucketMapKeys(buckets[..n], ps[..n]);
      var prefix := set i | 0 <= i < n :: buckets[..n][i];
      assert prefix == set i | 0 <= i < n :: buckets[i];
      assert (set i | 0 <= i < |buckets| :: buckets[i]) == prefix + {buckets[n]};
    }
  }

  /** Each bucket holds the truncated percentile of its last position in
      the list: a later duplicate bucket overwrites an earlier one. */
  lemma {:induction false} BucketMapLastWins(buckets: seq<real>, ps: seq<real>, i: nat)
    requires |ps| == |buckets| && i < |buckets|
    requires forall j :: i < j < |buckets| ==> buckets[j] != buckets[i]
    ensures buckets[i] in BucketMap(buckets, ps)
    ensures BucketMap(buckets, ps)[buckets[i]] == ToUint64(ps[i])
  {
    var n := |buckets| - 1;
    if i < n {
      assert buckets[..n][i] == buckets[i] && ps[..n][i] == ps[i];
      BucketMapLastWins(buckets[..n], ps[..n], i);
    }
  }

  /** With increasing buckets and non-decreasing in-range percentiles, the
      published bucket values never decrease as the bucket bound grows.
      These values are the truncated percentiles themselves, not counts of
      observations at or below the bound as Prometheus reads them. */
  lemma BucketMapMonotone(buckets: seq<real>, ps: seq<real>)
    requires |ps| == |buckets|
    requires forall i, j :: 0 <= i < j < |buckets| ==> buckets[i] < buckets[j]
    requires forall i, j :: 0 <= i < j < |ps| ==> ps[i] <= ps[j]
    requires forall i :: 0 <= i < |ps| ==> 0.0 <= ps[i] < 18446744073709551616.0
    ensures forall b1, b2 ::
      b1 in BucketMap(buckets, ps) && b2 in BucketMap(buckets, ps) && b1 <= b2 ==>
      BucketMap(buckets, ps)[b1] <= BucketMap(buckets, ps)[b2]
  {
    var m := BucketMap(buckets, ps);
    BucketMapKeys(buckets, ps);
    forall b1, b2 | b1 in m && b2 in m && b1 <= b2 ensures m[b1] <= m[b2] {
      var i :| 0 <= i < |buckets| && buckets[i] == b1;
      var j :| 0 <= j < |buckets| && buckets[j] == b2;
      assert i <= j;
      BucketMapLastWins(buckets, ps, i);
      BucketMapLastWins(buckets, ps, j);
      FloorMonotone(ps[i], ps[j]);
    }
  }

  lemma FloorMonotone(x: real, y: real)
    requires 0.0 <= x <= y < 18446744073709551616.0
    ensures ToUint64(x) <= ToUint64(y)
  {
  }
}
