/** Options, results, two-way byte counts, and sums over the values of a finite map. */
module Sums {

  datatype Option<+T> = None | Some(value: T)

  datatype Result<+T, +E> = Ok(value: T) | Err(error: E)

  datatype Direction = Up | Down

  /** Bytes a client sent (`up`) and received (`down`). */
  datatype Flow = Flow(up: nat, down: nat) {
    function At(d: Direction): nat { if d.Up? then up else down }

    function Plus(other: Flow): Flow { Flow(up + other.up, down + other.down) }

    predicate AtMost(other: Flow) { up <= other.up && down <= other.down }
  }

  const NO_FLOW := Flow(0, 0)

  /** One direction of a map of byte counts. */
  function Column<K>(m: map<K, Flow>, d: Direction): map<K, nat> {
    map k | k in m :: m[k].At(d)
  }

  ghost function Sum<K>(m: map<K, nat>): nat {
    if m == map[] then 0 else
      var k :| k in m;
      m[k] + Sum(m - {k})
  }

  /** The value a map gives a key, 0 when the key is missing. */
  function At<K>(m: map<K, nat>, k: K): nat { if k in m then m[k] else 0 }

  lemma {:induction false} SumSplit<K>(m: map<K, nat>, k: K)
    requires k in m
    ensures Sum(m) == m[k] + Sum(m - {k})
  {
    var k0 :| k0 in m && Sum(m) == m[k0] + Sum(m - {k0});
    if k0 != k {
      SumSplit(m - {k0}, k);
      SumSplit(m - {k}, k0);
      assert m - {k0} - {k} == m - {k} - {k0};
    }
  }

  lemma SumUpdate<K>(m: map<K, nat>, k: K, v: nat)
    ensures Sum(m[k := v]) + At(m, k) == Sum(m) + v
  {
    SumSplit(m[k := v], k);
    assert m[k := v] - {k} == m - {k};
    if k in m {
      SumSplit(m, k);
    } else {
      assert m - {k} == m;
    }
  }

  lemma {:induction false} SumAtMost<K>(m: map<K, nat>, n: map<K, nat>)
    requires forall k :: k in m ==> m[k] <= At(n, k)
    ensures Sum(m) <= Sum(n)
    decreases m.Keys
  {
    if m != map[] {
      var k :| k in m;
      SumSplit(m, k);
      SumAtMost(m - {k}, n - {k});
      if k in n {
        SumSplit(n, k);
      } else {
        assert n - {k} == n;
      }
    }
  }

  lemma {:induction false} SumOfZeros<K>(m: map<K, nat>)
    requires forall k :: k in m ==> m[k] == 0
    ensures Sum(m) == 0
  {
    SumAtMost(m, map[]);
  }

  /** Sums of pointwise sums add up. */
  lemma {:induction false} SumPlus<K>(m: map<K, nat>, a: map<K, nat>, b: map<K, nat>)
    requires m.Keys == a.Keys == b.Keys
    requires forall k :: k in m ==> m[k] == a[k] + b[k]
    ensures Sum(m) == Sum(a) + Sum(b)
    decreases m.Keys
  {
    if m != map[] {
      var k :| k in m;
      SumSplit(m, k);
      SumSplit(a, k);
      SumSplit(b, k);
      SumPlus(m - {k}, a - {k}, b - {k});
    }
  }

  lemma SumPlusAtMost<K>(a: map<K, nat>, b: map<K, nat>, n: map<K, nat>)
    requires a.Keys == b.Keys == n.Keys
    requires forall k :: k in n ==> a[k] + b[k] <= n[k]
    ensures Sum(a) + Sum(b) <= Sum(n)
  {
    var m := map k | k in n :: a[k] + b[k];
    SumPlus(m, a, b);
    SumAtMost(m, n);
  }
}
