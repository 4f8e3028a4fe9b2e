/** Sums of the values of a finite map. */
module MapSums {
  import opened MachineInts

  ghost function Sum<K(!new)>(m: map<K, nat>): nat
    decreases |m|
  {
    if m == map[] then 0
    else var k :| k in m; m[k] + Sum(m - {k})
  }

  lemma {:induction false} SumRemove<K(!new)>(m: map<K, nat>, k: K)
    requires k in m
    ensures Sum(m) == m[k] + Sum(m - {k})
    decreases |m|
  {
    var j :| j in m && Sum(m) == m[j] + Sum(m - {j});
    if j != k {
      SumRemove(m - {j}, k);
      SumRemove(m - {k}, j);
      assert m - {j} - {k} == m - {k} - {j};
    }
  }

  /** Writing one entry changes the sum by the difference at that entry. */
  lemma SumUpdate<K(!new)>(m: map<K, nat>, k: K, v: nat)
    ensures Sum(m[k := v]) == Sum(m) - Get(m, k) + v
  {
    SumRemove(m[k := v], k);
    assert m[k := v] - {k} == m - {k};
    if k in m {
      SumRemove(m, k);
    } else {
      assert m - {k} == m;
    }
  }

  lemma SumMember<K(!new)>(m: map<K, nat>, k: K)
    ensures Get(m, k) <= Sum(m)
  {
    if k in m { SumRemove(m, k); }
  }

  lemma SumTwoMembers<K(!new)>(m: map<K, nat>, j: K, k: K)
    requires j != k
    ensures Get(m, j) + Get(m, k) <= Sum(m)
  {
    if j in m && k in m {
      SumRemove(m, j);
      SumMember(m - {j}, k);
    } else {
      SumMember(m, j);
      SumMember(m, k);
    }
  }

  /** Pointwise smaller on the same keys means a smaller sum. */
  lemma {:induction false} SumMonotone<K(!new)>(a: map<K, nat>, b: map<K, nat>)
    requires forall k :: k in a ==> k in b && a[k] <= b[k]
    ensures Sum(a) <= Sum(b)
    decreases |a|
  {
    if a != map[] {
      var k :| k in a;
      SumRemove(a, k);
      SumRemove(b, k);
      SumMonotone(a - {k}, b - {k});
    }
  }

  lemma {:induction false} SumOfZeros<K(!new)>(m: map<K, nat>)
    requires forall k :: k in m ==> m[k] == 0
    ensures Sum(m) == 0
    decreases |m|
  {
    if m != map[] {
      var k :| k in m;
      SumRemove(m, k);
      SumOfZeros(m - {k});
    }
  }

  lemma SumOfOne<K(!new)>(m: map<K, nat>, k: K)
    requires m.Keys == {k}
    ensures Sum(m) == m[k]
  {
    SumRemove(m, k);
    assert m - {k} == map[];
  }

  lemma SumOfTwo<K(!new)>(m: map<K, nat>, j: K, k: K)
    requires j != k && m.Keys == {j, k}
    ensures Sum(m) == m[j] + m[k]
  {
    SumRemove(m, j);
    SumOfOne(m - {j}, k);
  }

  function Restrict<K>(m: map<K, nat>, s: set<K>): map<K, nat> { map k | k in m && k in s :: m[k] }

  lemma SplitOne<K(!new)>(m: map<K, nat>, s: set<K>, k: K)
    requires k !in s
    ensures Sum(m - (s + {k})) + Get(m, k) == Sum(m - s)
    ensures Sum(Restrict(m, s + {k})) == Sum(Restrict(m, s)) + Get(m, k)
  {
    if k in m {
      SumRemove(m - s, k);
      assert m - s - {k} == m - (s + {k});
      SumRemove(Restrict(m, s + {k}), k);
      assert Restrict(m, s + {k}) - {k} == Restrict(m, s);
    } else {
      assert m - (s + {k}) == m - s;
      assert Restrict(m, s + {k}) == Restrict(m, s);
    }
  }

  /** A sum splits over a set of keys and the rest. */
  lemma {:induction false} SumSplit<K(!new)>(m: map<K, nat>, s: set<K>)
    ensures Sum(m - s) + Sum(Restrict(m, s)) == Sum(m)
    decreases |s|
  {
    if s == {} {
      assert m - s == m && Restrict(m, s) == map[];
    } else {
      var k :| k in s;
      SumSplit(m, s - {k});
      SplitOne(m, s - {k}, k);
      assert s - {k} + {k} == s;
    }
  }

  lemma RestrictSplit<K(!new)>(m: map<K, nat>, s: set<K>, t: set<K>)
    ensures Sum(Restrict(m, s)) == Sum(Restrict(m, s * t)) + Sum(Restrict(m, s - t))
  {
    SumSplit(Restrict(m, s), t);
    assert Restrict(m, s) - t == Restrict(m, s - t);
    assert Restrict(Restrict(m, s), t) == Restrict(m, s * t);
  }

  /** An iterator sum of 64-bit values; an overflow on the way aborts (None), which happens
      exactly when the whole sum does not fit. */
  method CheckedSum<K(!new, ==)>(m: map<K, nat>) returns (r: Option<U64>)
    ensures r == if Sum(m) <= U64_MAX then Some(Sum(m)) else None
  {
    var rest := m;
    var total: U64 := 0;
    while rest != map[]
      invariant total + Sum(rest) == Sum(m)
      decreases |rest|
    {
      var k :| k in rest;
      SumRemove(rest, k);
      if total + rest[k] > U64_MAX { return None; }
      total := total + rest[k];
      rest := rest - {k};
    }
    return Some(total);
  }

  /** A sum is bounded by another when its keys map one-to-one to keys of at least the
      same value. */
  lemma {:induction false} SumInjection<A(!new), B(!new)>(m: map<A, nat>, f: map<A, B>, n: map<B, nat>)
    requires forall a :: a in m ==> a in f && f[a] in n && m[a] <= n[f[a]]
    requires forall a, b :: a in m && b in m && a in f && b in f && f[a] == f[b] ==> a == b
    ensures Sum(m) <= Sum(n)
    decreases |m|
  {
    if m != map[] {
      var a :| a in m;
      SumRemove(m, a);
      SumRemove(n, f[a]);
      SumInjection(m - {a}, f, n - {f[a]});
    }
  }
}
