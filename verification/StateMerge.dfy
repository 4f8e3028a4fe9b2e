/** Merging the partial state of a parallel worker into an accumulated state. */
module StateMerge {
  import opened MachineInts
  import opened ChainState

  /** The two maps never give different values for one key. */
  predicate Agree<K, V(==)>(a: map<K, V>, b: map<K, V>)
  {
    forall k :: k in a && k in b ==> a[k] == b[k]
  }

  /** The conflict scan of one map, key by key. */
  method FindConflict<K(==), V(==)>(mine: map<K, V>, other: map<K, V>) returns (conflict: bool)
    ensures conflict <==> !Agree(mine, other)
  {
    var todo := other.Keys;
    while todo != {}
      invariant todo <= other.Keys
      invariant forall k :: k in other && k !in todo && k in mine ==> mine[k] == other[k]
      decreases |todo|
    {
      var k :| k in todo;
      if k in mine && mine[k] != other[k] { return true; }
      todo := todo - {k};
    }
    return false;
  }

  predicate Compatible(a: KvState, b: KvState)
  {
    && Agree(a.kv, b.kv) && Agree(a.balances, b.balances) && Agree(a.nonces, b.nonces)
    && Agree(a.vm.storage, b.vm.storage) && Agree(a.vm.code, b.vm.code)
  }

  /** The union of two compatible states.  The burned total is the larger one, and the
      accounts inside the virtual machine are not merged. */
  function Union(a: KvState, b: KvState): KvState
  {
    a.(kv := a.kv + b.kv, balances := a.balances + b.balances, nonces := a.nonces + b.nonces,
       burned := Max(a.burned, b.burned),
       vm := a.vm.(storage := a.vm.storage + b.vm.storage, code := a.vm.code + b.vm.code))
  }

  /** `KvState::merge`: all five maps are scanned before anything is written, so a
      conflict leaves the receiver as it was. */
  method Merge(mine: KvState, other: KvState) returns (ok: bool, merged: KvState)
    ensures ok <==> Compatible(mine, other)
    ensures merged == if ok then Union(mine, other) else mine
  {
    merged := mine;
    var c := FindConflict(mine.kv, other.kv);
    if c { return false, mine; }
    c := FindConflict(mine.balances, other.balances);
    if c { return false, mine; }
    c := FindConflict(mine.nonces, other.nonces);
    if c { return false, mine; }
    c := FindConflict(mine.vm.storage, other.vm.storage);
    if c { return false, mine; }
    c := FindConflict(mine.vm.code, other.vm.code);
    if c { return false, mine; }
    merged := merged.(kv := merged.kv + other.kv);
    merged := merged.(balances := merged.balances + other.balances);
    merged := merged.(nonces := merged.nonces + other.nonces);
    merged := merged.(burned := Max(merged.burned, other.burned));
    merged := merged.(vm := merged.vm.(storage := merged.vm.storage + other.vm.storage));
    merged := merged.(vm := merged.vm.(code := merged.vm.code + other.vm.code));
    ok := true;
  }

  /** On compatible states the union extends both sides and does not depend on which of
      them receives the other, apart from the virtual machine's own accounts. */
  lemma UnionIsSymmetric(a: KvState, b: KvState)
    requires Compatible(a, b)
    ensures Compatible(b, a)
    ensures var u, v := Union(a, b), Union(b, a);
            && u.kv == v.kv && u.balances == v.balances && u.nonces == v.nonces && u.burned == v.burned
            && u.vm.storage == v.vm.storage && u.vm.code == v.vm.code
    ensures Compatible(Union(a, b), a) && Compatible(Union(a, b), b)
    ensures Union(Union(a, b), b) == Union(a, b)
  {
    MapUnion(a.kv, b.kv);
    MapUnion(a.balances, b.balances);
    MapUnion(a.nonces, b.nonces);
    MapUnion(a.vm.storage, b.vm.storage);
    MapUnion(a.vm.code, b.vm.code);
  }

  lemma MapUnion<K, V>(a: map<K, V>, b: map<K, V>)
    requires Agree(a, b)
    ensures Agree(b, a) && a + b == b + a
    ensures Agree(a + b, a) && Agree(a + b, b) && a + b + b == a + b
  {
  }
}
