/** The root of a string-to-string map. */
module StoreRoot {
  import opened MachineInts
  import opened Ordering
  import opened Text
  import opened Merkle

  type Store = map<string, string>

  /** The root the source returns for an empty map. */
  const EMPTY_TREE_ROOT: Digest := [
    0x88, 0xbd, 0x0e, 0x82, 0x6b, 0xc2, 0xac, 0x62,
    0xd8, 0xe5, 0xcc, 0xc2, 0x5c, 0x09, 0x50, 0x68,
    0xbe, 0x83, 0x35, 0x16, 0xe9, 0x78, 0x54, 0x9c,
    0xd1, 0xfa, 0xed, 0xdd, 0xf4, 0x1c, 0x11, 0x47]

  /** The keys in the order in which an ordered map is walked. */
  function SortedKeys(m: Store): (ks: seq<string>)
    ensures |ks| == |m| && (forall k :: k in ks <==> k in m)
  {
    StringLessTotal();
    assert |m.Keys| == |m|;
    Sorted(m.Keys, StringLess)
  }

  lemma SortedKeysAscend(m: Store)
    ensures Ascending(SortedKeys(m), StringLess)
  {
    StringLessTotal();
  }

  function Entries(m: Store): (es: seq<Bytes>)
    ensures |es| == |m|
  {
    var ks := SortedKeys(m);
    seq(|ks|, i requires 0 <= i < |ks| => EntryBytes(Utf8(ks[i]), Utf8(m[ks[i]])))
  }

  function MerkleRoot(h: Hasher, m: Store): Digest
  {
    if m == map[] then EMPTY_TREE_ROOT else MerkleRootOf(h, LeafHashes(h, Entries(m)))
  }

  predicate FitsLengthPrefix(m: Store)
  {
    forall k :: k in m ==> |Utf8(k)| <= U32_MAX && |Utf8(m[k])| <= U32_MAX
  }

  /** Two non-empty maps with the same root are the same map. */
  lemma StoreBinds(h: Hasher, a: Store, b: Store)
    requires a != map[] && b != map[]
    requires FitsLengthPrefix(a) && FitsLengthPrefix(b)
    requires CollisionFree(h, Hashed(h, Entries(a)) + Hashed(h, Entries(b)))
    requires MerkleRoot(h, a) == MerkleRoot(h, b)
    ensures a == b
  {
    RootIsTreeHash(h, Entries(a));
    RootIsTreeHash(h, Entries(b));
    TreeHashBinds(h, Entries(a), Entries(b));
    EntriesBind(a, b);
  }

  lemma EntriesBind(a: Store, b: Store)
    requires FitsLengthPrefix(a) && FitsLengthPrefix(b) && Entries(a) == Entries(b)
    ensures a == b
  {
    forall i | 0 <= i < |a|
      ensures SortedKeys(a)[i] == SortedKeys(b)[i] && a[SortedKeys(a)[i]] == b[SortedKeys(b)[i]]
    {
      EntryBinds(a, b, i);
    }
    SameWalk(a, b, SortedKeys(a), SortedKeys(b));
  }

  lemma EntryBinds(a: Store, b: Store, i: nat)
    requires FitsLengthPrefix(a) && FitsLengthPrefix(b) && Entries(a) == Entries(b) && i < |a|
    ensures |a| == |b|
    ensures SortedKeys(a)[i] == SortedKeys(b)[i] && a[SortedKeys(a)[i]] == b[SortedKeys(b)[i]]
  {
    assert |Entries(a)| == |Entries(b)|;
    var j, k := SortedKeys(a)[i], SortedKeys(b)[i];
    assert EntryBytes(Utf8(j), Utf8(a[j])) == Entries(a)[i] == Entries(b)[i] == EntryBytes(Utf8(k), Utf8(b[k]));
    EntryBytesInjective(Utf8(j), Utf8(a[j]), Utf8(k), Utf8(b[k]));
    Utf8Injective(j, k);
    Utf8Injective(a[j], b[k]);
  }

  lemma SameWalk(a: Store, b: Store, ka: seq<string>, kb: seq<string>)
    requires |ka| == |kb| && (forall k :: k in ka <==> k in a) && (forall k :: k in kb <==> k in b)
    requires forall i :: 0 <= i < |ka| ==> ka[i] == kb[i] && a[ka[i]] == b[kb[i]]
    ensures a == b
  {
    assert ka == kb;
    forall k | k in a ensures k in b && a[k] == b[k] {
      assert k in ka;
    }
    assert forall k :: k in b ==> k in kb;
  }
}
