/** The Kafka-style name rewrite done before a metric is published:
    `<base>-for-broker-<id>` and `<base>-for-topic-<t>` become a base name
    plus a `for_broker` / `for_topic` label. Includes the two string
    functions it rests on, `strings.Contains` and `strings.Split`. */
module Extract {

  import opened Wrappers

  /** `sep` occurs in `s` starting at index `j`. */
  predicate OccursAt(s: string, sep: string, j: int) {
    0 <= j && j + |sep| <= |s| && s[j..j + |sep|] == sep
  }

  /** An occurrence in a suffix is an occurrence in the whole string. */
  lemma OccursInSuffix(s: string, sep: string, d: nat, k: int)
    requires d <= |s| && 0 <= k
    ensures OccursAt(s[d..], sep, k) <==> OccursAt(s, sep, d + k)
  {
    if 0 <= k && k + |sep| <= |s| - d {
      assert s[d..][k..k + |sep|] == s[d + k..d + k + |sep|];
    }
  }

  /** An occurrence in a prefix is an occurrence in the whole string. */
  lemma OccursInPrefix(s: string, sep: string, d: nat, k: int)
    requires d <= |s| && OccursAt(s[..d], sep, k)
    ensures OccursAt(s, sep, k)
  {
    assert s[..d][k..k + |sep|] == s[k..k + |sep|];
  }

  /** `strings.Index`: the index at which `sep` first occurs. */
  function IndexOf(s: string, sep: string): (r: Option<nat>)
    requires |sep| > 0
    ensures r.Some? ==> r.value + |sep| <= |s|
    decreases |s|
  {
    if |s| < |sep| then None
    else if OccursAt(s, sep, 0) then Some(0)
    else
      match IndexOf(s[1..], sep)
      case None => None
      case Some(i) => Some(i + 1)
  }

  /** What IndexOf finds is an occurrence. */
  lemma {:induction false} IndexOfOccurs(s: string, sep: string)
    requires |sep| > 0 && IndexOf(s, sep).Some?
    ensures OccursAt(s, sep, IndexOf(s, sep).value)
    decreases |s|
  {
    if !OccursAt(s, sep, 0) {
      IndexOfOccurs(s[1..], sep);
      OccursInSuffix(s, sep, 1, IndexOf(s[1..], sep).value);
    }
  }

  /** IndexOf finds an occurrence at or before every occurrence, so it is
      the first one, and it answers None only when there is none. */
  lemma {:induction false} IndexOfFirst(s: string, sep: string, j: int)
    requires |sep| > 0 && OccursAt(s, sep, j)
    ensures IndexOf(s, sep).Some? && IndexOf(s, sep).value <= j
    decreases |s|
  {
    if !OccursAt(s, sep, 0) {
      OccursInSuffix(s, sep, 1, j - 1);
      IndexOfFirst(s[1..], sep, j - 1);
    }
  }

  /** `strings.Contains`. */
  function Contains(s: string, sub: string): bool
    requires |sub| > 0
  {
    IndexOf(s, sub).Some?
  }

  lemma ContainsIffOccurs(s: string, sub: string)
    requires |sub| > 0
    ensures Contains(s, sub) <==> exists j :: OccursAt(s, sub, j)
  {
    if exists j :: OccursAt(s, sub, j) {
      var j :| OccursAt(s, sub, j);
      IndexOfFirst(s, sub, j);
    }
    if Contains(s, sub) {
      IndexOfOccurs(s, sub);
    }
  }

  /** `strings.Split`: the pieces of `s` between occurrences of `sep`,
      found left to right. There is one piece more than there are
      occurrences, so at least one. */
  function Split(s: string, sep: string): (parts: seq<string>)
    requires |sep| > 0
    ensures |parts| >= 1
    decreases |s|
  {
    match IndexOf(s, sep)
    case None => [s]
    case Some(i) => [s[..i]] + Split(s[i + |sep|..], sep)
  }

  /** `strings.Join`, the inverse of Split. */
  function Join(parts: seq<string>, sep: string): string
    requires |parts| >= 1
  {
    if |parts| == 1 then parts[0] else parts[0] + sep + Join(parts[1..], sep)
  }

  /** Joining the pieces with the separator gives the string back. */
  lemma {:induction false} SplitJoin(s: string, sep: string)
    requires |sep| > 0
    ensures Join(Split(s, sep), sep) == s
    decreases |s|
  {
    var r := IndexOf(s, sep);
    if r.Some? {
      var i := r.value;
      var tail := s[i + |sep|..];
      SplitJoin(tail, sep);
      IndexOfOccurs(s, sep);
      SplitAt(s, sep, i);
    }
  }

  /** Cutting `s` around an occurrence of `sep` loses nothing. */
  lemma SplitAt(s: string, sep: string, i: nat)
    requires OccursAt(s, sep, i)
    ensures s == s[..i] + sep + s[i + |sep|..]
  {
    assert s[i..i + |sep|] == sep;
    assert s == s[..i] + s[i..i + |sep|] + s[i + |sep|..];
  }

  /** The text before the first occurrence holds no occurrence. */
  lemma BeforeFirstIsFree(s: string, sep: string, i: nat, j: int)
    requires |sep| > 0 && IndexOf(s, sep) == Some(i)
    ensures !OccursAt(s[..i], sep, j)
  {
    if OccursAt(s[..i], sep, j) {
      OccursInPrefix(s, sep, i, j);
      IndexOfFirst(s, sep, j);
    }
  }

  /** No piece of a Split contains the separator. */
  lemma {:induction false} SplitPiecesFree(s: string, sep: string, k: int, j: int)
    requires |sep| > 0 && 0 <= k < |Split(s, sep)|
    ensures !OccursAt(Split(s, sep)[k], sep, j)
    decreases |s|
  {
    match IndexOf(s, sep)
    case None =>
      if OccursAt(s, sep, j) {
        IndexOfFirst(s, sep, j);
      }
    case Some(i) =>
      var tail := s[i + |sep|..];
      assert Split(s, sep) == [s[..i]] + Split(tail, sep);
      if k == 0 {
        BeforeFirstIsFree(s, sep, i, j);
      } else {
        assert Split(s, sep)[k] == Split(tail, sep)[k - 1];
        SplitPiecesFree(tail, sep, k - 1, j);
      }
  }

  /** Split, one step: the piece before the first occurrence, then the
      split of the rest. */
  lemma SplitStep(s: string, sep: string, i: nat)
    requires |sep| > 0 && IndexOf(s, sep) == Some(i)
    ensures Split(s, sep) == [s[..i]] + Split(s[i + |sep|..], sep)
  {
  }

  /** `v` stands in `s` at `start`, no occurrence of `sep` begins inside
      it, and it is followed by `sep` or by the end of `s`: `v` runs from
      `start` up to the next occurrence of `sep`, or to the end. */
  predicate PieceAt(s: string, sep: string, start: nat, v: string) {
    && start + |v| <= |s| && s[start..start + |v|] == v
    && (forall j :: start <= j < start + |v| ==> !OccursAt(s, sep, j))
    && (start + |v| == |s| || OccursAt(s, sep, start + |v|))
  }

  /** There is only one piece at a given start. */
  lemma PieceAtUnique(s: string, sep: string, start: nat, v: string, w: string)
    requires PieceAt(s, sep, start, v) && PieceAt(s, sep, start, w)
    ensures v == w
  {
    assert |v| < |w| ==> !OccursAt(s, sep, start + |v|);
    assert |w| < |v| ==> !OccursAt(s, sep, start + |w|);
  }

  /** The first piece is the text before the first separator, and the
      second the text from there up to the next separator or the end. */
  lemma SplitSecondPiece(s: string, sep: string, i: nat)
    requires |sep| > 0 && IndexOf(s, sep) == Some(i)
    ensures |Split(s, sep)| >= 2
    ensures Split(s, sep)[0] == s[..i]
    ensures PieceAt(s, sep, i + |sep|, Split(s, sep)[1])
  {
    var d := i + |sep|;
    SplitStep(s, sep, i);
    FirstPiece(s[d..], sep);
    PieceInWhole(s, sep, d, Split(s[d..], sep)[0]);
  }

  /** A piece found at the start of a suffix stands at the same place in
      the whole string. */
  lemma PieceInWhole(s: string, sep: string, d: nat, v: string)
    requires d <= |s| && PieceAt(s[d..], sep, 0, v)
    ensures PieceAt(s, sep, d, v)
  {
    OccursInSuffix(s, sep, d, |v|);
    assert s[d..d + |v|] == s[d..][0..|v|];
    forall j | d <= j < d + |v| ensures !OccursAt(s, sep, j) {
      OccursInSuffix(s, sep, d, j - d);
    }
  }

  /** The first piece of a Split stands at the start of the string. */
  lemma FirstPiece(s: string, sep: string)
    requires |sep| > 0
    ensures PieceAt(s, sep, 0, Split(s, sep)[0])
  {
    forall j | 0 <= j < |Split(s, sep)[0]| ensures !OccursAt(s, sep, j) {
      if OccursAt(s, sep, j) {
        IndexOfFirst(s, sep, j);
      }
    }
    match IndexOf(s, sep)
    case None =>
    case Some(k) =>
      SplitStep(s, sep, k);
      IndexOfOccurs(s, sep);
  }

  /** The parsed form of a registry name: the name to publish under and the
      labels taken out of it. */
  datatype Extracted = Extracted(name: string, labels: map<string, string>)

  /** The two name patterns of the Kafka client's metrics. */
  datatype Kind = Broker | Topic {
    /** What `strings.Contains` looks for. */
    function Marker(): string {
      match this
      case Broker => "for-broker"
      case Topic => "for-topic"
    }
    /** What `strings.Split` cuts at. */
    function Separator(): string {
      "-" + Marker() + "-"
    }
    /** What is put back after the first piece. */
    function Suffix(): string {
      "-" + Marker()
    }
    /** The label that receives the second piece. */
    function Label(): string {
      match this
      case Broker => "for_broker"
      case Topic => "for_topic"
    }
  }

  /** One rewrite step: when the name contains the marker, it becomes the
      first piece of the split plus the suffix, and the label is set to the
      second piece. A name that contains the marker but not the full
      separator has one piece only, and indexing the second one panics. */
  function RewriteFor(e: Extracted, kind: Kind): (r: Result<Extracted>)
    ensures r.Ok? ==> r.value.labels.Keys <= e.labels.Keys + {kind.Label()}
    ensures r.Ok? ==> forall k :: k in e.labels && k != kind.Label() ==>
      k in r.value.labels && r.value.labels[k] == e.labels[k]
  {
    if !Contains(e.name, kind.Marker()) then Ok(e)
    else
      var split := Split(e.name, kind.Separator());
      if |split| < 2 then Panic("index out of range [1] with length 1")
      else Ok(Extracted(split[0] + kind.Suffix(), e.labels[kind.Label() := split[1]]))
  }

  /** The whole rewrite: the broker rule, then the topic rule on its result. */
  function ExtractNameLabels(name: string): (r: Result<Extracted>)
    ensures r.Ok? ==> r.value.labels.Keys <= {Broker.Label(), Topic.Label()}
  {
    match RewriteFor(Extracted(name, map[]), Broker)
    case Panic(why) => Panic(why)
    case Ok(e) => RewriteFor(e, Topic)
  }

  /** A name mentioning neither broker nor topic passes through unlabelled. */
  lemma ExtractPassThrough(name: string)
    requires !Contains(name, Broker.Marker()) && !Contains(name, Topic.Marker())
    ensures ExtractNameLabels(name) == Ok(Extracted(name, map[]))
  {
  }

  /** The separator is the marker between two dashes, so containing the
      separator implies containing the marker. */
  lemma SeparatorHasMarker(s: string, kind: Kind)
    requires Contains(s, kind.Separator())
    ensures Contains(s, kind.Marker())
  {
    var sep, marker := kind.Separator(), kind.Marker();
    var j := IndexOf(s, sep).value;
    IndexOfOccurs(s, sep);
    assert sep[1..1 + |marker|] == marker;
    OccursInside(s, sep, j, marker, 1);
    IndexOfFirst(s, marker, j + 1);
  }

  /** An occurrence of a part of `sep` inside an occurrence of `sep`. */
  lemma OccursInside(s: string, sep: string, j: int, m: string, o: nat)
    requires OccursAt(s, sep, j) && o + |m| <= |sep| && sep[o..o + |m|] == m
    ensures OccursAt(s, m, j + o)
  {
    assert s[j..j + |sep|] == sep;
    forall k | 0 <= k < |m| ensures s[j + o + k] == m[k] {
      assert s[j..j + |sep|][o + k] == sep[o + k] == sep[o..o + |m|][k];
    }
    assert s[j + o..j + o + |m|] == m;
  }

  /** The rewrite step panics exactly when the marker occurs without the
      separator. */
  lemma RewriteForPanics(e: Extracted, kind: Kind)
    ensures RewriteFor(e, kind).Panic? <==>
      (Contains(e.name, kind.Marker()) && !Contains(e.name, kind.Separator()))
  {
    var sep := kind.Separator();
    match IndexOf(e.name, sep)
    case None =>
    case Some(i) =>
      SeparatorHasMarker(e.name, kind);
      SplitStep(e.name, sep, i);
  }

  /** Without the separator, the step either panics or changes nothing. */
  lemma RewriteForWithoutSeparator(e: Extracted, kind: Kind)
    requires !Contains(e.name, kind.Separator())
    ensures RewriteFor(e, kind) == if Contains(e.name, kind.Marker())
      then Panic("index out of range [1] with length 1") else Ok(e)
  {
  }

  /** With the separator at its first occurrence `i`, the name is cut
      there and the label is the text from there up to the next
      occurrence or the end, which holds no separator itself. */
  lemma RewriteForCut(e: Extracted, kind: Kind, i: nat)
    requires IndexOf(e.name, kind.Separator()) == Some(i)
    ensures RewriteFor(e, kind).Ok?
    ensures var r, sep := RewriteFor(e, kind).value, kind.Separator();
      && kind.Label() in r.labels
      && var v := r.labels[kind.Label()];
         && r.name == e.name[..i] + kind.Suffix()
         && r.labels == e.labels[kind.Label() := v]
         && PieceAt(e.name, sep, i + |sep|, v)
         && forall j :: !OccursAt(v, sep, j)
  {
    var sep := kind.Separator();
    SeparatorHasMarker(e.name, kind);
    SplitSecondPiece(e.name, sep, i);
    var v := Split(e.name, sep)[1];
    assert RewriteFor(e, kind) == Ok(Extracted(e.name[..i] + kind.Suffix(), e.labels[kind.Label() := v]));
    forall j ensures !OccursAt(v, sep, j) {
      SplitPiecesFree(e.name, sep, 1, j);
    }
  }

  /** A string lacking one of the letters of `sub` does not contain it. */
  lemma MissingLetter(s: string, sub: string, c: char)
    requires |sub| > 0 && c in sub && c !in s
    ensures !Contains(s, sub)
  {
    ContainsIffOccurs(s, sub);
  }

  /** After a one-letter base other than a dash, the broker separator
    first occurs at index 1, and an id without a `b` is the piece after it. */
  lemma BrokerIdIsPiece(c: char, id: string)
    requires c != '-' && 'b' !in id
    ensures IndexOf([c] + "-for-broker-" + id, Broker.Separator()) == Some(1)
    ensures PieceAt([c] + "-for-broker-" + id, Broker.Separator(), 13, id)
  {
    var s, sep := [c] + "-for-broker-" + id, Broker.Separator();
    assert s[0] != sep[0];
    assert OccursAt(s[1..], sep, 0);
    MissingLetter(id, sep, 'b');
    ContainsIffOccurs(id, sep);
    assert s[13..] == id;
    forall j | 13 <= j < |s| ensures !OccursAt(s, sep, j) {
      OccursInSuffix(s, sep, 13, j - 13);
    }
  }

  /** A one-letter base, the broker separator and an id without a `b`:
    the broker rule cuts the id off whole, whatever dashes or topic
    marker it holds, and the topic rule then finds nothing in the base. */
  lemma BrokerRewrite(c: char, id: string)
    requires c != '-' && c != 't' && 'b' !in id
    ensures ExtractNameLabels([c] + "-for-broker-" + id) ==
      Ok(Extracted([c] + "-for-broker", map[Broker.Label() := id]))
  {
    var s := [c] + "-for-broker-" + id;
    BrokerIdIsPiece(c, id);
    RewriteForCut(Extracted(s, map[]), Broker, 1);
    var e := RewriteFor(Extracted(s, map[]), Broker).value;
    PieceAtUnique(s, Broker.Separator(), 13, e.labels[Broker.Label()], id);
    assert e.name == [c] + "-for-broker";
    MissingLetter(e.name, Topic.Marker(), 't');
  }

  /** The metrics of two brokers get one name, and so one cache key; only
    the `for_broker` label tells them apart. */
  lemma BrokersShareName()
    ensures ExtractNameLabels("x" + "-for-broker-" + "1") ==
      Ok(Extracted("x" + "-for-broker", map[Broker.Label() := "1"]))
    ensures ExtractNameLabels("x" + "-for-broker-" + "2") ==
      Ok(Extracted("x" + "-for-broker", map[Broker.Label() := "2"]))
  {
    BrokerRewrite('x', "1");
    BrokerRewrite('x', "2");
  }

  /** A topic after a broker stays inside the broker id: the topic rule
    runs on the name the broker rule has already cut, so no `for_topic`
    label is set. */
  lemma TopicInsideBrokerId()
    ensures ExtractNameLabels("a" + "-for-broker-" + "1-for-topic-t") ==
      Ok(Extracted("a" + "-for-broker", map[Broker.Label() := "1-for-topic-t"]))
  {
    BrokerRewrite('a', "1-for-topic-t");
  }
}
