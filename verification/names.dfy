/** Metric-name handling of the exporter: flattening a name into the
    character set the exporter accepts, and the cache identity key. */
module Names {

  /** The five characters the exporter rewrites to '_'. */
  predicate IsDisallowed(c: char) {
    c == ' ' || c == '.' || c == '-' || c == '=' || c == '/'
  }

  /** One `strings.Replace(s, from, to, -1)` with single-character operands. */
  function ReplaceAll(s: string, from: char, to: char): (r: string)
    ensures |r| == |s|
    ensures forall i :: 0 <= i < |s| ==> r[i] == if s[i] == from then to else s[i]
  {
    if s == [] then []
    else [if s[0] == from then to else s[0]] + ReplaceAll(s[1..], from, to)
  }

  /** flattenKey: the five replacements, applied in the source's order.
      Position by position, a disallowed character becomes '_' and every
      other character is kept, so no disallowed character survives. */
  function FlattenKey(key: string): (r: string)
    ensures |r| == |key|
    ensures forall i :: 0 <= i < |key| ==> r[i] == if IsDisallowed(key[i]) then '_' else key[i]
    ensures forall i :: 0 <= i < |r| ==> !IsDisallowed(r[i])
  {
    var k1 := ReplaceAll(key, ' ', '_');
    var k2 := ReplaceAll(k1, '.', '_');
    var k3 := ReplaceAll(k2, '-', '_');
    var k4 := ReplaceAll(k3, '=', '_');
    ReplaceAll(k4, '/', '_')
  }

  /** Flattening an already flattened name changes nothing. */
  lemma FlattenKeyIdempotent(key: string)
    ensures FlattenKey(FlattenKey(key)) == FlattenKey(key)
  {
    var once := FlattenKey(key);
    var twice := FlattenKey(once);
    assert |twice| == |once|;
    forall i | 0 <= i < |once| ensures twice[i] == once[i] {
      assert !IsDisallowed(once[i]);
    }
  }

  /** A name without disallowed characters is exported as it is. */
  lemma FlattenKeyKeepsCleanNames(key: string)
    requires forall i :: 0 <= i < |key| ==> !IsDisallowed(key[i])
    ensures FlattenKey(key) == key
  {
    var r := FlattenKey(key);
    forall i | 0 <= i < |key| ensures r[i] == key[i] {
    }
  }

  /** Two names flatten alike exactly when they agree position by position
      up to the disallowed characters. */
  lemma FlattenKeyCollision(a: string, b: string)
    ensures FlattenKey(a) == FlattenKey(b) <==>
      |a| == |b| &&
      forall i :: 0 <= i < |a| ==>
        (a[i] == b[i] || (IsDisallowed(a[i]) && (IsDisallowed(b[i]) || b[i] == '_'))
                      || (IsDisallowed(b[i]) && a[i] == '_'))
  {
    var fa, fb := FlattenKey(a), FlattenKey(b);
    if fa == fb {
      forall i | 0 <= i < |a|
        ensures a[i] == b[i] || (IsDisallowed(a[i]) && (IsDisallowed(b[i]) || b[i] == '_'))
                             || (IsDisallowed(b[i]) && a[i] == '_')
      {
        assert fa[i] == fb[i];
      }
    }
  }

  /** createKey: the cache identity key, built from the raw (unflattened)
      namespace, subsystem and metric name. */
  function CreateKey(namespace: string, subsystem: string, name: string): (r: string)
    ensures |r| == |namespace| + |subsystem| + |name| + 2
    ensures r[..|namespace|] == namespace && r[|namespace|] == '_'
    ensures r[|r| - |name|..] == name
  {
    namespace + "_" + subsystem + "_" + name
  }

  /** Under one namespace and subsystem, distinct names have distinct keys. */
  lemma CreateKeyInjective(namespace: string, subsystem: string, n1: string, n2: string)
    requires CreateKey(namespace, subsystem, n1) == CreateKey(namespace, subsystem, n2)
    ensures n1 == n2
  {
    var k := CreateKey(namespace, subsystem, n1);
    assert |n1| == |n2|;
    assert n1 == k[|k| - |n1|..] == n2;
  }

  /** The key is finer than the exported name: "a.b" and "a_b" are cached
      apart although both are exported as "a_b". */
  lemma KeyFinerThanExportedName(namespace: string, subsystem: string)
    ensures FlattenKey("a.b") == FlattenKey("a_b") == "a_b"
    ensures CreateKey(namespace, subsystem, "a.b") != CreateKey(namespace, subsystem, "a_b")
  {
    var k1 := CreateKey(namespace, subsystem, "a.b");
    var k2 := CreateKey(namespace, subsystem, "a_b");
    assert k1[|k1| - 2] == '.' && k2[|k2| - 2] == '_';
    FlattenKeyKeepsCleanNames("a_b");
    var f := FlattenKey("a.b");
    assert f[0] == 'a' && f[1] == '_' && f[2] == 'b';
  }
}
