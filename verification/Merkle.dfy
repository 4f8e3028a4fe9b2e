/** The Merkle tree behind the state root.  SHA-256 enters as an arbitrary function from
    byte strings to 32-byte digests. */
module Merkle {
  import opened MachineInts
  import opened Text

  const HASH_LEN: nat := 32

  type Digest = b: Bytes | |b| == HASH_LEN witness seq(HASH_LEN, _ => 0)
  type Hasher = Bytes -> Digest

  /** What a leaf hashes: both lengths are cast to 32 bits. */
  function EntryBytes(key: Bytes, value: Bytes): Bytes
  {
    Le32(|key|) + key + Le32(|value|) + value
  }

  function LeafPreimage(entry: Bytes): Bytes { [0] + entry }

  function NodePreimage(left: Digest, right: Digest): Bytes { [1] + left + right }

  // ---- Powers of two ---------------------------------------------------------------

  function NextPowerOfTwo(n: nat): (p: nat)
    ensures n <= p && (n >= 2 ==> p < 2 * n - 1 && p % 2 == 0) && p >= 1
  {
    if n <= 1 then 1 else 2 * NextPowerOfTwo((n + 1) / 2)
  }

  predicate IsPowerOfTwo(p: nat)
  {
    p == 1 || (p > 1 && p % 2 == 0 && IsPowerOfTwo(p / 2))
  }

  /** The largest power of two strictly below `n`, found by doubling from `k`. */
  function LargestBelow(n: nat, k: nat): (p: nat)
    requires 1 <= k < n
    ensures k <= p < n <= 2 * p
    decreases n - k
  {
    if 2 * k < n then LargestBelow(n, 2 * k) else k
  }

  /** The split point of the source, `next_power_of_two(n) / 2`. */
  function Mid(n: nat): (m: nat)
    ensures n >= 2 ==> 1 <= m < n
  {
    NextPowerOfTwo(n) / 2
  }

  lemma {:induction false} NextPowerIsPower(n: nat)
    ensures IsPowerOfTwo(NextPowerOfTwo(n))
  {
    if n > 1 { NextPowerIsPower((n + 1) / 2); }
  }

  lemma {:induction false} LargestBelowIsPower(n: nat, k: nat)
    requires 1 <= k < n && IsPowerOfTwo(k)
    ensures IsPowerOfTwo(LargestBelow(n, k))
    decreases n - k
  {
    if 2 * k < n { LargestBelowIsPower(n, 2 * k); }
  }

  /** No power of two lies strictly between one power and its double. */
  lemma {:induction false} PowersApart(p: nat, q: nat)
    requires IsPowerOfTwo(p) && IsPowerOfTwo(q) && p <= q < 2 * p
    ensures p == q
  {
    if p > 1 { PowersApart(p / 2, q / 2); }
  }

  /** The source always splits at the largest power of two strictly below the number of
      leaves, so its fallback that hashes the left half twice is never taken. */
  lemma SplitPoint(n: nat)
    requires n >= 2
    ensures Mid(n) == LargestBelow(n, 1) && IsPowerOfTwo(Mid(n)) && Mid(n) < n <= 2 * Mid(n)
  {
    NextPowerIsPower(n);
    LargestBelowIsPower(n, 1);
    var p, q := Mid(n), LargestBelow(n, 1);
    if p <= q { PowersApart(p, q); } else { PowersApart(q, p); }
  }

  // ---- The tree --------------------------------------------------------------------

  /** `merkle_root_of`, with the fallback for an empty right half. */
  function MerkleRootOf(h: Hasher, leaves: seq<Digest>): Digest
    requires leaves != []
    decreases |leaves|
  {
    if |leaves| == 1 then leaves[0]
    else
      var mid := Mid(|leaves|);
      var (lower, upper) := if |leaves| > mid then (leaves[..mid], leaves[mid..]) else (leaves, []);
      var left := MerkleRootOf(h, lower);
      var right := if upper == [] then left else MerkleRootOf(h, upper);
      h(NodePreimage(left, right))
  }

  /** The Merkle Tree Hash of section 2.1 of RFC 6962 over a non-empty list of entries. */
  function TreeHash(h: Hasher, entries: seq<Bytes>): Digest
    requires entries != []
    decreases |entries|
  {
    if |entries| == 1 then h(LeafPreimage(entries[0]))
    else
      var k := LargestBelow(|entries|, 1);
      h(NodePreimage(TreeHash(h, entries[..k]), TreeHash(h, entries[k..])))
  }

  function LeafHashes(h: Hasher, entries: seq<Bytes>): (r: seq<Digest>)
    ensures |r| == |entries|
  {
    seq<Digest>(|entries|, i requires 0 <= i < |entries| => h(LeafPreimage(entries[i])))
  }

  lemma {:induction false} RootIsTreeHash(h: Hasher, entries: seq<Bytes>)
    requires entries != []
    ensures MerkleRootOf(h, LeafHashes(h, entries)) == TreeHash(h, entries)
    decreases |entries|
  {
    if |entries| > 1 {
      SplitPoint(|entries|);
      var k := Mid(|entries|);
      RootIsTreeHash(h, entries[..k]);
      RootIsTreeHash(h, entries[k..]);
      assert LeafHashes(h, entries)[..k] == LeafHashes(h, entries[..k]);
      assert LeafHashes(h, entries)[k..] == LeafHashes(h, entries[k..]);
    }
  }

  /** The shape of the tree the source builds. */
  datatype Tree = Leaf(digest: Digest) | Node(left: Tree, right: Tree)

  function Shape(leaves: seq<Digest>): Tree
    requires leaves != []
    decreases |leaves|
  {
    if |leaves| == 1 then Leaf(leaves[0])
    else Node(Shape(leaves[..Mid(|leaves|)]), Shape(leaves[Mid(|leaves|)..]))
  }

  function HashOf(h: Hasher, t: Tree): Digest
  {
    match t
    case Leaf(d) => d
    case Node(l, r) => h(NodePreimage(HashOf(h, l), HashOf(h, r)))
  }

  function InnerNodes(t: Tree): nat
  {
    match t
    case Leaf(_) => 0
    case Node(l, r) => 1 + InnerNodes(l) + InnerNodes(r)
  }

  function Height(t: Tree): nat
  {
    match t
    case Leaf(_) => 0
    case Node(l, r) => 1 + Max(Height(l), Height(r))
  }

  function TrailingZeros(x: nat): nat
    requires x > 0
  {
    if x % 2 == 1 then 0 else 1 + TrailingZeros(x / 2)
  }

  /** `compute_tree_depth` */
  function TreeDepth(n: nat): nat
  {
    if n == 0 then 0 else TrailingZeros(NextPowerOfTwo(n))
  }

  lemma {:induction false} DepthMonotone(m: nat, n: nat)
    requires 1 <= m <= n
    ensures TreeDepth(m) <= TreeDepth(n)
  {
    if m > 1 { DepthMonotone((m + 1) / 2, (n + 1) / 2); }
  }

  lemma {:induction false} NextPowerOfPower(p: nat)
    requires IsPowerOfTwo(p)
    ensures NextPowerOfTwo(p) == p
  {
    if p > 1 { NextPowerOfPower(p / 2); }
  }

  /** The root costs one hash per inner node, and there are always one fewer of them
      than leaves. */
  lemma {:induction false} ShapeOfTree(h: Hasher, leaves: seq<Digest>)
    requires leaves != []
    ensures HashOf(h, Shape(leaves)) == MerkleRootOf(h, leaves)
    ensures InnerNodes(Shape(leaves)) == |leaves| - 1
    decreases |leaves|
  {
    var n := |leaves|;
    if n > 1 {
      var mid := Mid(n);
      SplitPoint(n);
      ShapeOfTree(h, leaves[..mid]);
      ShapeOfTree(h, leaves[mid..]);
    }
  }

  /** The height is the depth the source reports. */
  lemma {:induction false} HeightOfTree(leaves: seq<Digest>)
    requires leaves != []
    ensures Height(Shape(leaves)) == TreeDepth(|leaves|)
    decreases |leaves|
  {
    var n := |leaves|;
    if n > 1 {
      var mid := Mid(n);
      SplitPoint(n);
      HeightOfTree(leaves[..mid]);
      HeightOfTree(leaves[mid..]);
      NextPowerOfPower(mid);
      DepthMonotone(n - mid, mid);
    }
  }

  // ---- Binding ---------------------------------------------------------------------

  /** Everything hashed on the way to a root. */
  ghost function Hashed(h: Hasher, entries: seq<Bytes>): set<Bytes>
    requires entries != []
    decreases |entries|
  {
    if |entries| == 1 then {LeafPreimage(entries[0])}
    else
      var k := LargestBelow(|entries|, 1);
      Hashed(h, entries[..k]) + Hashed(h, entries[k..])
      + {NodePreimage(TreeHash(h, entries[..k]), TreeHash(h, entries[k..]))}
  }

  predicate Separate(h: Hasher, inputs: set<Bytes>, x: Bytes, y: Bytes)
  {
    x in inputs && y in inputs && h(x) == h(y) ==> x == y
  }

  /** No collision among the given inputs; a 32-byte digest allows no more. */
  ghost predicate CollisionFree(h: Hasher, inputs: set<Bytes>)
  {
    forall x, y :: Separate(h, inputs, x, y)
  }

  lemma NodePreimageInjective(l1: Digest, r1: Digest, l2: Digest, r2: Digest)
    requires NodePreimage(l1, r1) == NodePreimage(l2, r2)
    ensures l1 == l2 && r1 == r2
  {
    assert l1 == NodePreimage(l1, r1)[1..HASH_LEN + 1] && r1 == NodePreimage(l1, r1)[HASH_LEN + 1..];
    assert l2 == NodePreimage(l2, r2)[1..HASH_LEN + 1] && r2 == NodePreimage(l2, r2)[HASH_LEN + 1..];
  }

  /** The input whose digest is the root. */
  function TopPreimage(h: Hasher, entries: seq<Bytes>): Bytes
    requires entries != []
  {
    if |entries| == 1 then LeafPreimage(entries[0])
    else
      var k := LargestBelow(|entries|, 1);
      NodePreimage(TreeHash(h, entries[..k]), TreeHash(h, entries[k..]))
  }

  /** Equal roots mean equal lists of entries, whatever their lengths: the domain bytes
      keep a leaf from passing as a node. */
  lemma {:induction false} TreeHashBinds(h: Hasher, a: seq<Bytes>, b: seq<Bytes>)
    requires a != [] && b != []
    requires CollisionFree(h, Hashed(h, a) + Hashed(h, b))
    requires TreeHash(h, a) == TreeHash(h, b)
    ensures a == b
    decreases |a|
  {
    SameTop(h, a, b);
    if |a| == 1 {
      SameLeaf(h, a, b);
    } else {
      var j, k := LargestBelow(|a|, 1), LargestBelow(|b|, 1);
      SameNode(h, a, b);
      PartsCollideLess(h, a, b, j, k);
      TreeHashBinds(h, a[..j], b[..k]);
      TreeHashBinds(h, a[j..], b[k..]);
      Rejoin(a, j, b, k);
    }
  }

  lemma Rejoin(a: seq<Bytes>, j: nat, b: seq<Bytes>, k: nat)
    requires j <= |a| && k <= |b| && a[..j] == b[..k] && a[j..] == b[k..]
    ensures a == b
  {
    assert a == a[..j] + a[j..] && b == b[..k] + b[k..];
  }

  lemma SameLeaf(h: Hasher, a: seq<Bytes>, b: seq<Bytes>)
    requires |a| == 1 && |b| == 1 && TopPreimage(h, a) == TopPreimage(h, b)
    ensures a == b
  {
    assert a[0] == LeafPreimage(a[0])[1..] && b[0] == LeafPreimage(b[0])[1..];
  }

  lemma SameNode(h: Hasher, a: seq<Bytes>, b: seq<Bytes>)
    requires |a| > 1 && |b| > 1 && TopPreimage(h, a) == TopPreimage(h, b)
    ensures var j, k := LargestBelow(|a|, 1), LargestBelow(|b|, 1);
            TreeHash(h, a[..j]) == TreeHash(h, b[..k]) && TreeHash(h, a[j..]) == TreeHash(h, b[k..])
  {
    var j, k := LargestBelow(|a|, 1), LargestBelow(|b|, 1);
    NodePreimageInjective(TreeHash(h, a[..j]), TreeHash(h, a[j..]), TreeHash(h, b[..k]), TreeHash(h, b[k..]));
  }

  lemma PartsCollideLess(h: Hasher, a: seq<Bytes>, b: seq<Bytes>, j: nat, k: nat)
    requires 0 < j < |a| && j == LargestBelow(|a|, 1) && 0 < k < |b| && k == LargestBelow(|b|, 1)
    requires CollisionFree(h, Hashed(h, a) + Hashed(h, b))
    ensures CollisionFree(h, Hashed(h, a[..j]) + Hashed(h, b[..k]))
    ensures CollisionFree(h, Hashed(h, a[j..]) + Hashed(h, b[k..]))
  {
    HashedParts(h, a);
    HashedParts(h, b);
    UnionsCollideLess(h, Hashed(h, a[..j]), Hashed(h, b[..k]), Hashed(h, a), Hashed(h, b));
    UnionsCollideLess(h, Hashed(h, a[j..]), Hashed(h, b[k..]), Hashed(h, a), Hashed(h, b));
  }

  lemma UnionsCollideLess(h: Hasher, a: set<Bytes>, b: set<Bytes>, c: set<Bytes>, d: set<Bytes>)
    requires a <= c && b <= d && CollisionFree(h, c + d)
    ensures CollisionFree(h, a + b)
  {
    FewerCollide(h, a + b, c + d);
  }

  lemma TopOfTree(h: Hasher, entries: seq<Bytes>)
    requires entries != []
    ensures TopPreimage(h, entries) in Hashed(h, entries)
    ensures h(TopPreimage(h, entries)) == TreeHash(h, entries)
    ensures TopPreimage(h, entries)[0] == (if |entries| == 1 then 0 else 1)
  {
  }

  /** Equal roots come from equal top inputs, and so from two leaves or two nodes. */
  lemma SameTop(h: Hasher, a: seq<Bytes>, b: seq<Bytes>)
    requires a != [] && b != []
    requires CollisionFree(h, Hashed(h, a) + Hashed(h, b))
    requires TreeHash(h, a) == TreeHash(h, b)
    ensures TopPreimage(h, a) == TopPreimage(h, b) && (|a| == 1 <==> |b| == 1)
  {
    TopOfTree(h, a);
    TopOfTree(h, b);
    assert Separate(h, Hashed(h, a) + Hashed(h, b), TopPreimage(h, a), TopPreimage(h, b));
  }

  lemma HashedParts(h: Hasher, entries: seq<Bytes>)
    requires |entries| > 1
    ensures var k := LargestBelow(|entries|, 1);
            Hashed(h, entries[..k]) <= Hashed(h, entries) && Hashed(h, entries[k..]) <= Hashed(h, entries)
  {
  }

  lemma FewerCollide(h: Hasher, few: set<Bytes>, many: set<Bytes>)
    requires few <= many && CollisionFree(h, many)
    ensures CollisionFree(h, few)
  {
    forall x, y ensures Separate(h, few, x, y) { assert Separate(h, many, x, y); }
  }

  /** Length prefixes make an entry unambiguous as long as the lengths fit 32 bits. */
  lemma EntryBytesInjective(k1: Bytes, v1: Bytes, k2: Bytes, v2: Bytes)
    requires |k1| <= U32_MAX && |v1| <= U32_MAX && |k2| <= U32_MAX && |v2| <= U32_MAX
    requires EntryBytes(k1, v1) == EntryBytes(k2, v2)
    ensures k1 == k2 && v1 == v2
  {
    var e := EntryBytes(k1, v1);
    assert e[..4] == Le32(|k1|) && e[..4] == Le32(|k2|);
    Le32Injective(|k1|, |k2|);
    var n := |k1|;
    assert e[4..4 + n] == k1 && e[4..4 + n] == k2;
    assert e[8 + n..] == v1 && e[8 + n..] == v2;
  }
}
