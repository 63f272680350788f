/** Stock helpers shared by the models: an option type, sequences without
    repetition, flattening, and sums over finite maps. */
module Collections {

  datatype Option<+T> = None | Some(value: T)

  /** The value a Go map read `m[k]` tests for presence. */
  function Get<K, V>(m: map<K, V>, k: K): Option<V> {
    if k in m then Some(m[k]) else None
  }

  ghost predicate Distinct<T>(s: seq<T>) {
    forall i, j :: 0 <= i < j < |s| ==> s[i] != s[j]
  }

  function Flatten<T>(xss: seq<seq<T>>): seq<T> {
    if xss == [] then [] else xss[0] + Flatten(xss[1..])
  }

  /** Every element of a flattened list comes from one of the lists. */
  lemma {:induction false} InFlatten<T>(xss: seq<seq<T>>, x: T)
    ensures x in Flatten(xss) <==> exists i :: 0 <= i < |xss| && x in xss[i]
  {
    if xss != [] {
      InFlatten(xss[1..], x);
      forall i | 0 < i < |xss| ensures xss[i] == xss[1..][i - 1] {
      }
    }
  }

  lemma {:induction false} FlattenAppend<T>(xss: seq<seq<T>>, xs: seq<T>)
    ensures Flatten(xss + [xs]) == Flatten(xss) + xs
  {
    if xss != [] {
      assert (xss + [xs])[1..] == xss[1..] + [xs];
      FlattenAppend(xss[1..], xs);
    }
  }

  /** The sum of the values of a finite map. */
  ghost function Sum<K>(m: map<K, nat>): nat
    decreases |m|
  {
    if m == map[] then 0
    else
      var k :| k in m;
      m[k] + Sum(m - {k})
  }

  /** The sum does not depend on which key is counted first. */
  lemma {:induction false} SumPick<K>(m: map<K, nat>, k: K)
    requires k in m
    ensures Sum(m) == m[k] + Sum(m - {k})
    decreases |m|
  {
    assert m != map[];
    var c :| c in m && Sum(m) == m[c] + Sum(m - {c});
    if c != k {
      SumPick(m - {c}, k);
      SumPick(m - {k}, c);
      assert m - {c} - {k} == m - {k} - {c};
    }
  }

  /** Changing one value changes the sum by as much. */
  lemma SumChanged<K>(m: map<K, nat>, m': map<K, nat>, k: K)
    requires k in m && m'.Keys == m.Keys
    requires m' - {k} == m - {k}
    ensures Sum(m') + m[k] == Sum(m) + m'[k]
  {
    SumPick(m, k);
    SumPick(m', k);
  }

  /** Writing one value replaces its part of the sum. */
  lemma SumPut<K>(m: map<K, nat>, k: K, n: nat)
    ensures Sum(m[k := n]) + (if k in m then m[k] else 0) == Sum(m) + n
  {
    SumPick(m[k := n], k);
    assert m[k := n] - {k} == m - {k};
    if k in m {
      SumPick(m, k);
    } else {
      assert m - {k} == m;
    }
  }

  /** Each key with a measure of its value. */
  ghost function Measured<K, V>(m: map<K, V>, size: V -> nat): map<K, nat> {
    map k | k in m :: size(m[k])
  }

  lemma MeasuredPut<K, V>(m: map<K, V>, k: K, v: V, size: V -> nat)
    ensures Sum(Measured(m[k := v], size)) + (if k in m then size(m[k]) else 0) == Sum(Measured(m, size)) + size(v)
  {
    SumPut(Measured(m, size), k, size(v));
    assert Measured(m[k := v], size) == Measured(m, size)[k := size(v)];
  }
}
