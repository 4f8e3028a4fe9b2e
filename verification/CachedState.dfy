/** The root of a state as a node obtains it: through the cache of the process. */
module CachedState {
  import opened MachineInts
  import opened Text
  import opened Merkle
  import opened StoreRoot
  import opened RootCache
  import opened ChainState

  /** `KvState::root`: build the image and look its root up. */
  method StateRoot(h: Hasher, s: KvState, cache: MerkleCache) returns (root: Digest)
    modifies cache
    ensures (root, cache.slots) == CachedRoot(h, old(cache.slots), cache.capacity, Combined(h, s))
  {
    var combined := BuildCombined(h, s);
    root := cache.StateMerkleRoot(h, combined);
  }

  /** What a process has asked its cache so far, and the position of one question. */
  datatype History = History(capacity: nat, queries: seq<Query>, at: nat)

  /** At that position the process asks for the root of a state. */
  ghost predicate AsksFor(h: Hasher, p: History, s: KvState)
  {
    p.at < |p.queries| && p.queries[p.at] == Ask(Combined(h, s))
  }

  /** The root the process gets for the state. */
  ghost function RootIn(h: Hasher, p: History, s: KvState): Digest
    requires AsksFor(h, p, s)
  {
    AnswerAt(h, p.capacity, p.queries, p.at)
  }

  /** The map whose root the process gets. */
  ghost function SourceIn(h: Hasher, p: History, s: KvState): Store
    requires AsksFor(h, p, s)
  {
    SourceAt(p.capacity, p.queries, p.at)
  }

  /** A process gets the true root of a state if and only if the slot that serves it was
      filled from that state's own image. */
  lemma RootInIsTrueIff(h: Hasher, p: History, s: KvState)
    requires AsksFor(h, p, s)
    requires FitsLengthPrefix(Combined(h, s)) && FitsLengthPrefix(SourceIn(h, p, s))
    requires CollisionFree(h, Inputs(h, SourceIn(h, p, s)) + Inputs(h, Combined(h, s)))
    ensures RootIn(h, p, s) == Root(h, s) <==> SourceIn(h, p, s) == Combined(h, s)
  {
    AnswerIsRightIff(h, p.capacity, p.queries, p.at);
  }

  /** Roots that two processes obtain, each from a cache whose asked maps are told apart by
      their keys, bind everything that is committed. */
  lemma CachedRootsBind(h: Hasher, p: History, s: KvState, q: History, t: KvState)
    requires AsksFor(h, p, s) && KeysIdentify(Asked(p.queries))
    requires AsksFor(h, q, t) && KeysIdentify(Asked(q.queries))
    requires FitsLengthPrefix(Combined(h, s)) && FitsLengthPrefix(Combined(h, t))
    requires CollisionFree(h, HashedForRoot(h, s) + HashedForRoot(h, t))
    requires RootIn(h, p, s) == RootIn(h, q, t)
    ensures SameCommitted(s, t)
  {
    CacheAgrees(h, p.capacity, p.queries, p.at);
    CacheAgrees(h, q.capacity, q.queries, q.at);
    RootBinds(h, s, t);
  }

  /** What a cached root commits to: two processes get equal roots if and only if the same
      map is behind both. */
  lemma CachedRootsEqualIff(h: Hasher, p: History, s: KvState, q: History, t: KvState)
    requires AsksFor(h, p, s) && AsksFor(h, q, t)
    requires FitsLengthPrefix(SourceIn(h, p, s)) && FitsLengthPrefix(SourceIn(h, q, t))
    requires CollisionFree(h, Inputs(h, SourceIn(h, p, s)) + Inputs(h, SourceIn(h, q, t)))
    ensures RootIn(h, p, s) == RootIn(h, q, t) <==> SourceIn(h, p, s) == SourceIn(h, q, t)
  {
    BurnedIsPresent(h, s);
    BurnedIsPresent(h, t);
    AnswerIsRootOfSource(h, p.capacity, p.queries, p.at);
    AnswerIsRootOfSource(h, q.capacity, q.queries, q.at);
    if RootIn(h, p, s) == RootIn(h, q, t) { StoreBinds(h, SourceIn(h, p, s), SourceIn(h, q, t)); }
  }

  // ---- Two states with one root --------------------------------------------------------

  /** At key `k`, the second map is the first with `value` written at `at`. */
  predicate WrittenAt(a: Store, b: Store, at: string, value: string, k: string)
  {
    && (k in b <==> k in a || k == at)
    && (k in b ==> b[k] == if k == at then value else a[k])
  }

  lemma Written(a: Store, b: Store, at: string, value: string)
    requires forall k :: WrittenAt(a, b, at, value, k)
    ensures b == a[at := value]
  {
    forall k ensures (k in b <==> k in a[at := value]) && (k in b ==> b[k] == a[at := value][k]) {
      assert WrittenAt(a, b, at, value, k);
    }
  }

  /** The states hold the same cells, with the same values outside `c`. */
  ghost predicate DifferAt(h: Hasher, s: KvState, t: KvState, c: Cell)
  {
    && Cells(s) == Cells(t) && c in Cells(s)
    && forall d :: d != c ==> CellValue(h, s, d) == CellValue(h, t, d)
  }

  /** Changing the value of one cell rewrites one entry of the image. */
  lemma CellInImage(h: Hasher, s: KvState, t: KvState, c: Cell)
    requires DifferAt(h, s, t, c)
    ensures Combined(h, t) == Combined(h, s)[CellKey(c) := CellValue(h, t, c)]
  {
    var a, b := Combined(h, s), Combined(h, t);
    forall k ensures WrittenAt(a, b, CellKey(c), CellValue(h, t, c), k) { CellAt(h, s, t, c, k); }
    Written(a, b, CellKey(c), CellValue(h, t, c));
  }

  lemma CellAt(h: Hasher, s: KvState, t: KvState, c: Cell, k: string)
    requires DifferAt(h, s, t, c)
    ensures WrittenAt(Combined(h, s), Combined(h, t), CellKey(c), CellValue(h, t, c), k)
  {
    CellKeysInjective();
    ImageKeys(Cells(s), CellKey, ValueIn(h, s), k);
    ImageKeys(Cells(s), CellKey, ValueIn(h, t), k);
    if d :| d in Cells(s) && CellKey(d) == k {
      ImageValue(Cells(s), CellKey, ValueIn(h, s), d);
      ImageValue(Cells(s), CellKey, ValueIn(h, t), d);
    }
  }

  /** The entries of the store and of the burned total sort after every balance and before
      every nonce. */
  lemma SortsInside(c: Cell, a: string, b: string)
    requires c.Kv? || c.Burned?
    ensures StringLess("bal:" + a, CellKey(c)) && StringLess(CellKey(c), "nonce:" + b)
  {
    if c.Burned? {
      FirstDifference("b", 'a', "l:" + a, 'u', "rned");
      assert "b" + ['a'] + ("l:" + a) == "bal:" + a && "b" + ['u'] + "rned" == "burned";
      FirstDifference("", 'b', "urned", 'n', "once:" + b);
      assert "" + ['b'] + "urned" == "burned" && "" + ['n'] + ("once:" + b) == "nonce:" + b;
    } else {
      FirstDifference("", 'b', "al:" + a, 'k', "v:" + c.key);
      assert "" + ['b'] + ("al:" + a) == "bal:" + a && "" + ['k'] + ("v:" + c.key) == "kv:" + c.key;
      FirstDifference("", 'k', "v:" + c.key, 'n', "once:" + b);
      assert "" + ['n'] + ("once:" + b) == "nonce:" + b;
    }
  }

  /** ASCII strings compare at their first difference. */
  lemma {:induction false} FirstDifference(head: string, c: char, x: string, d: char, y: string)
    requires c < d < '\U{80}' && forall i :: 0 <= i < |head| ==> head[i] < '\U{80}'
    ensures StringLess(head + [c] + x, head + [d] + y)
    decreases |head|
  {
    var s, t := head + [c] + x, head + [d] + y;
    if head == "" {
      assert s[0] == c && t[0] == d;
      assert Utf8(s) == Utf8Char(c) + Utf8(s[1..]) && Utf8(t) == Utf8Char(d) + Utf8(t[1..]);
    } else {
      assert s[1..] == head[1..] + [c] + x && t[1..] == head[1..] + [d] + y;
      FirstDifference(head[1..], c, x, d, y);
      SameFirst(head[0], s[1..], t[1..]);
      assert s == [head[0]] + s[1..] && t == [head[0]] + t[1..];
    }
  }

  lemma SameFirst(c: char, x: string, y: string)
    requires c < '\U{80}' && StringLess(x, y)
    ensures StringLess([c] + x, [c] + y)
  {
    assert ([c] + x)[1..] == x && ([c] + y)[1..] == y;
    assert Utf8([c] + x) == [c as int] + Utf8(x) && Utf8([c] + y) == [c as int] + Utf8(y);
    assert ([c as int] + Utf8(x))[1..] == Utf8(x) && ([c as int] + Utf8(y))[1..] == Utf8(y);
  }

  /** The cache key of a state with a balance and a nonce covers neither the burned total
      nor any stored value. */
  lemma InnerCellIsNotKeyed(h: Hasher, s: KvState, t: KvState, c: Cell)
    requires s.balances != map[] && s.nonces != map[] && (c.Kv? || c.Burned?) && DifferAt(h, s, t, c)
    ensures SameKey(h, s, t)
  {
    var a :| a in s.balances;
    var b :| b in s.nonces;
    InImage(h, s, Balance(a));
    InImage(h, s, Nonce(b));
    CellPresent(s, c);
    InImage(h, s, c);
    SortsInside(c, a, b);
    MiddleEntryIsNotKeyed(Combined(h, s), "bal:" + a, CellKey(c), "nonce:" + b, CellValue(h, t, c));
    CellInImage(h, s, t, c);
  }

  lemma InImage(h: Hasher, s: KvState, c: Cell)
    requires Present(s, c)
    ensures CellKey(c) in Combined(h, s)
  {
    CellPresent(s, c);
    CellKeysInjective();
    ImageValue(Cells(s), CellKey, ValueIn(h, s), c);
  }

  /** The images of the two states have one cache key. */
  ghost predicate SameKey(h: Hasher, s: KvState, t: KvState)
  {
    && Combined(h, s) != map[] && Combined(h, t) != map[]
    && KeyOf(Combined(h, s)) == KeyOf(Combined(h, t))
  }

  lemma BurnedIsNotKeyed(h: Hasher, s: KvState, other: U64)
    requires s.balances != map[] && s.nonces != map[]
    ensures SameKey(h, s, s.(burned := other))
  {
    var t := s.(burned := other);
    assert Cells(t) == Cells(s);
    InnerCellIsNotKeyed(h, s, t, Burned);
  }

  /** Overwriting a stored value keeps the cache key. */
  lemma StoredValueIsNotKeyed(h: Hasher, s: KvState, k: string, v: string)
    requires s.balances != map[] && s.nonces != map[] && k in s.kv
    ensures SameKey(h, s, s.(kv := s.kv[k := v]))
  {
    var t := s.(kv := s.kv[k := v]);
    assert t.kv.Keys == s.kv.Keys;
    assert KvCells(t) == KvCells(s);
    InnerCellIsNotKeyed(h, s, t, Kv(k));
  }

  /** A process that asks for two states with one key in turn gets one root for both, the
      true root of the first. */
  lemma TwoStatesOneRoot(h: Hasher, capacity: nat, s: KvState, t: KvState)
    requires capacity > 0 && SameKey(h, s, t)
    ensures var queries := [Ask(Combined(h, s)), Ask(Combined(h, t))];
            && AsksFor(h, History(capacity, queries, 0), s) && AsksFor(h, History(capacity, queries, 1), t)
            && RootIn(h, History(capacity, queries, 0), s) == Root(h, s)
            && RootIn(h, History(capacity, queries, 1), t) == Root(h, s)
  {
    var a, b := Combined(h, s), Combined(h, t);
    SharedKeyIsServed(h, capacity, a, b);
    FirstIsComputed(h, capacity, a, b);
  }

  lemma FirstIsComputed(h: Hasher, capacity: nat, a: Store, b: Store)
    ensures AnswerAt(h, capacity, [Ask(a), Ask(b)], 0) == MerkleRoot(h, a)
  {
    AnswerIsRootOfSource(h, capacity, [Ask(a), Ask(b)], 0);
    assert [Ask(a), Ask(b)][..1] == [Ask(a)];
  }
}
