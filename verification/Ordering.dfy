/** Sorted enumeration of finite sets, as iteration over an ordered map or `sort` gives it. */
module Ordering {

  predicate Chains<T>(lt: (T, T) -> bool, x: T, y: T, z: T) { lt(x, y) && lt(y, z) ==> lt(x, z) }

  predicate Comparable<T(==)>(lt: (T, T) -> bool, x: T, y: T) { x == y || lt(x, y) || lt(y, x) }

  ghost predicate StrictTotal<T(!new)>(lt: (T, T) -> bool)
  {
    && (forall x :: !lt(x, x))
    && (forall x, y, z :: Chains(lt, x, y, z))
    && (forall x, y :: Comparable(lt, x, y))
  }

  lemma Asymmetric<T(!new)>(lt: (T, T) -> bool, x: T, y: T)
    requires StrictTotal(lt) && lt(x, y)
    ensures !lt(y, x)
  {
    assert Chains(lt, x, y, x);
  }

  predicate IsLeast<T(==)>(s: set<T>, lt: (T, T) -> bool, m: T)
  {
    m in s && forall x :: x in s && x != m ==> lt(m, x)
  }

  lemma {:induction false} LeastExists<T(!new)>(s: set<T>, lt: (T, T) -> bool)
    requires StrictTotal(lt) && s != {}
    ensures exists m :: IsLeast(s, lt, m)
  {
    var x :| x in s;
    var rest := s - {x};
    if rest == {} {
      assert IsLeast(s, lt, x) by { assert forall z :: z in s && z != x ==> z in rest; }
    } else {
      LeastExists(rest, lt);
      var y :| IsLeast(rest, lt, y);
      assert Comparable(lt, x, y);
      if lt(x, y) {
        forall z | z in s && z != x ensures lt(x, z) {
          assert z in rest && Chains(lt, x, y, z);
        }
        assert IsLeast(s, lt, x);
      } else {
        assert IsLeast(s, lt, y);
      }
    }
  }

  function Least<T(==, !new)>(s: set<T>, lt: (T, T) -> bool): (m: T)
    requires StrictTotal(lt) && s != {}
    ensures IsLeast(s, lt, m)
  {
    LeastExists(s, lt);
    LeastUnique(s, lt);
    var m :| IsLeast(s, lt, m); m
  }

  lemma LeastUnique<T(!new)>(s: set<T>, lt: (T, T) -> bool)
    requires StrictTotal(lt)
    ensures forall a, b :: IsLeast(s, lt, a) && IsLeast(s, lt, b) ==> a == b
  {
    forall a, b | IsLeast(s, lt, a) && IsLeast(s, lt, b) ensures a == b {
      if a != b { Asymmetric(lt, a, b); }
    }
  }

  predicate Distinct<T(==)>(r: seq<T>) { forall i, j :: 0 <= i < j < |r| ==> r[i] != r[j] }

  predicate Ascending<T>(r: seq<T>, lt: (T, T) -> bool)
  {
    forall i, j :: 0 <= i < j < |r| ==> lt(r[i], r[j])
  }

  /** The elements of `s` in ascending order. */
  function Sorted<T(==, !new)>(s: set<T>, lt: (T, T) -> bool): (r: seq<T>)
    requires StrictTotal(lt)
    ensures |r| == |s|
    ensures forall x :: x in r <==> x in s
    ensures Ascending(r, lt)
    decreases |s|
  {
    if s == {} then []
    else
      var m := Least(s, lt);
      [m] + Sorted(s - {m}, lt)
  }

  function Above<T(==)>(s: set<T>, lt: (T, T) -> bool, h: T): set<T>
  {
    set g | g in s && lt(h, g)
  }

  lemma AboveLeast<T(!new)>(s: set<T>, lt: (T, T) -> bool, m: T)
    requires IsLeast(s, lt, m) && !lt(m, m)
    ensures Above(s, lt, m) == s - {m}
  {
  }

  lemma AboveOther<T(!new)>(s: set<T>, lt: (T, T) -> bool, m: T, h: T)
    requires !lt(h, m)
    ensures Above(s, lt, h) == Above(s - {m}, lt, h)
  {
  }

  /** In a sorted enumeration, everything after an element, and nothing else, is above it. */
  lemma {:induction false} RankInSorted<T(!new)>(s: set<T>, lt: (T, T) -> bool, i: nat)
    requires StrictTotal(lt) && i < |s|
    ensures |Above(s, lt, Sorted(s, lt)[i])| == |s| - 1 - i
    decreases |s|
  {
    var m := Least(s, lt);
    var rest := s - {m};
    if i == 0 {
      AboveLeast(s, lt, m);
    } else {
      var h := Sorted(rest, lt)[i - 1];
      RankInSorted(rest, lt, i - 1);
      assert h in rest;
      Asymmetric(lt, m, h);
      AboveOther(s, lt, m, h);
    }
  }

  /** Removing all but the last `keep` of the sorted elements removes those with `keep`
      or more elements above them. */
  lemma PrefixByRank<T(!new)>(s: set<T>, lt: (T, T) -> bool, keep: nat, h: T)
    requires StrictTotal(lt) && h in s
    ensures var n := if |s| > keep then |s| - keep else 0;
            h in Sorted(s, lt)[..n] <==> |Above(s, lt, h)| >= keep
  {
    var r := Sorted(s, lt);
    var n := if |s| > keep then |s| - keep else 0;
    assert h in r;
    var i :| 0 <= i < |r| && r[i] == h;
    RankInSorted(s, lt, i);
    if i < n {
      assert r[..n][i] == h;
    }
  }

  lemma LessIsOther<T(!new)>(lt: (T, T) -> bool, x: T, y: T)
    requires StrictTotal(lt) && lt(x, y)
    ensures x != y && !lt(y, x)
  {
    Asymmetric(lt, x, y);
  }

  /** An element with one below it is not the first. */
  lemma NotFirst<T>(r: seq<T>, lt: (T, T) -> bool, low: T, mid: T)
    requires Ascending(r, lt) && low in r && low != mid && !lt(mid, low)
    ensures r[0] != mid
  {
    var i :| 0 <= i < |r| && r[i] == low;
    if i > 0 { assert lt(r[0], r[i]); }
  }

  /** An element with one above it is not the last. */
  lemma NotLast<T>(r: seq<T>, lt: (T, T) -> bool, mid: T, high: T)
    requires Ascending(r, lt) && high in r && high != mid && !lt(high, mid)
    ensures r[|r| - 1] != mid
  {
    var j :| 0 <= j < |r| && r[j] == high;
    if j < |r| - 1 { assert lt(r[j], r[|r| - 1]); }
  }

  predicate NatLess(a: nat, b: nat) { a < b }

  lemma NatLessTotal()
    ensures StrictTotal(NatLess)
  {
  }
}
