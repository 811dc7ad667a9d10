/** Account names, Option and Result, and sums over finite maps. */
module Prelude {

  datatype Option<+T> = None | Some(value: T) {
    function GetOr(default: T): T {
      if Some? then value else default
    }
  }

  /** The result of an entry point: it returns a value, or it panics and says why. */
  datatype Result<+T, +E> = Success(value: T) | Failure(error: E) {
    predicate IsFailure() {
      Failure?
    }

    function PropagateFailure<U>(): Result<U, E>
      requires Failure?
    {
      Failure(error)
    }

    function Extract(): T
      requires Success?
    {
      value
    }
  }

  datatype AccountId = AccountId(name: string)

  function Min(a: int, b: int): (m: int)
    ensures m <= a && m <= b && (m == a || m == b)
  {
    if a <= b then a else b
  }

  // Sums over finite maps

  ghost function Pick<K, V>(m: map<K, V>): (k: K)
    requires m != map[]
    ensures k in m
  {
    assert m.Keys != {};
    var k :| k in m;
    k
  }

  /** The sum of weight(k, m[k]) over all keys of m. */
  ghost function SumMap<K, V>(m: map<K, V>, weight: (K, V) -> nat): nat
    decreases |m|
  {
    if m == map[] then 0
    else
      var k := Pick(m);
      assert |m - {k}| < |m| by { SizeWithout(m, k); }
      weight(k, m[k]) + SumMap(m - {k}, weight)
  }

  lemma SizeWithout<K, V>(m: map<K, V>, k: K)
    requires k in m
    ensures |m - {k}| == |m| - 1
  {
    assert (m - {k}).Keys == m.Keys - {k};
    assert |m - {k}| == |(m - {k}).Keys| && |m| == |m.Keys|;
  }

  /** Any key may be taken out of the sum first. */
  lemma {:induction false} SumSplit<K, V>(m: map<K, V>, weight: (K, V) -> nat, k: K)
    requires k in m
    ensures SumMap(m, weight) == weight(k, m[k]) + SumMap(m - {k}, weight)
    decreases |m|
  {
    var p := Pick(m);
    if p != k {
      SizeWithout(m, p);
      SizeWithout(m, k);
      SumSplit(m - {p}, weight, k);
      SumSplit(m - {k}, weight, p);
      assert m - {p} - {k} == m - {k} - {p};
    }
  }

  function WeightAt<K, V>(m: map<K, V>, weight: (K, V) -> nat, k: K): nat {
    if k in m then weight(k, m[k]) else 0
  }

  /** Setting or removing one key changes the sum by the difference of that key's weights. */
  lemma SumUpdate<K, V>(m: map<K, V>, weight: (K, V) -> nat, k: K, v: V)
    ensures SumMap(m[k := v], weight) == SumMap(m, weight) - WeightAt(m, weight, k) + weight(k, v)
    ensures SumMap(m - {k}, weight) == SumMap(m, weight) - WeightAt(m, weight, k)
  {
    SumSplit(m[k := v], weight, k);
    assert m[k := v] - {k} == m - {k};
    if k in m {
      SumSplit(m, weight, k);
    } else {
      assert m - {k} == m;
    }
  }
}
