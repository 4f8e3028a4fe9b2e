/** The cache in front of the state root.  Its key covers only the size and the two end
    entries of a map, so an answer may be the root of another map; which one is followed
    through every run. */
module RootCache {
  import opened Ordering
  import opened Text
  import opened Merkle
  import opened StoreRoot

  /** What the cache key covers; the 64-bit hash of it is taken as injective. */
  datatype CacheKey = CacheKey(size: nat, first: (string, string), last: (string, string))

  function KeyOf(m: Store): CacheKey
    requires m != map[]
  {
    var ks := SortedKeys(m);
    CacheKey(|m|, (ks[0], m[ks[0]]), (ks[|ks| - 1], m[ks[|ks| - 1]]))
  }

  datatype Slot<+V> = Slot(key: CacheKey, value: V)

  /** The least-recently-used cache, most recent slot first. */
  type Slots<+V> = seq<Slot<V>>

  function Find<V>(slots: Slots<V>, key: CacheKey): (i: nat)
    ensures i <= |slots|
    ensures i < |slots| ==> slots[i].key == key
    ensures forall j :: 0 <= j < i ==> slots[j].key != key
  {
    if slots == [] || slots[0].key == key then 0 else 1 + Find(slots[1..], key)
  }

  /** Put a slot in front, drop an older one for the same key, and evict beyond capacity. */
  function Insert<V>(slots: Slots<V>, slot: Slot<V>, capacity: nat): Slots<V>
  {
    var all := [slot] + Dropped(slots, Find(slots, slot.key));
    if |all| <= capacity then all else all[..capacity]
  }

  function Dropped<V>(slots: Slots<V>, i: nat): Slots<V>
  {
    if i < |slots| then slots[..i] + slots[i + 1..] else slots
  }

  /** Serve a key: what its slot holds, or `computed` when it has none. */
  function Serve<V>(slots: Slots<V>, capacity: nat, key: CacheKey, computed: V): (V, Slots<V>)
  {
    var i := Find(slots, key);
    if i < |slots| then (slots[i].value, Insert(slots, slots[i], capacity))
    else (computed, Insert(slots, Slot(key, computed), capacity))
  }

  /** `state_merkle_root_with_config`: the answer and the cache afterwards. */
  function CachedRoot(h: Hasher, slots: Slots<Digest>, capacity: nat, m: Store): (Digest, Slots<Digest>)
  {
    if m == map[] then (EMPTY_TREE_ROOT, slots) else Serve(slots, capacity, KeyOf(m), MerkleRoot(h, m))
  }

  class MerkleCache {
    var slots: Slots<Digest>
    const capacity: nat

    /** A capacity of zero falls back to 1024. */
    constructor (capacity: nat)
      ensures this.capacity == (if capacity == 0 then 1024 else capacity) && slots == []
    {
      this.capacity := if capacity == 0 then 1024 else capacity;
      slots := [];
    }

    method Clear()
      modifies this
      ensures slots == []
    {
      slots := [];
    }

    method StateMerkleRoot(h: Hasher, m: Store) returns (root: Digest)
      modifies this
      ensures (root, slots) == CachedRoot(h, old(slots), capacity, m)
    {
      if m == map[] { return EMPTY_TREE_ROOT; }
      var key := KeyOf(m);
      var i := Lookup(key);
      if i < |slots| {
        root := slots[i].value;
        slots := Insert(slots, slots[i], capacity);
      } else {
        root := MerkleRootOf(h, LeafHashes(h, Entries(m)));
        slots := Insert(slots, Slot(key, root), capacity);
      }
    }

    method Lookup(key: CacheKey) returns (i: nat)
      ensures i == Find(slots, key)
    {
      i := 0;
      while i < |slots| && slots[i].key != key
        invariant i <= |slots|
        invariant forall j :: 0 <= j < i ==> slots[j].key != key
      {
        i := i + 1;
      }
    }
  }

  // ---- Runs against the cache ------------------------------------------------------

  datatype Query = Ask(m: Store) | ClearCache

  /** One query; clearing has no answer and yields a placeholder. */
  function After(h: Hasher, slots: Slots<Digest>, capacity: nat, q: Query): (Digest, Slots<Digest>)
  {
    match q
    case ClearCache => (EMPTY_TREE_ROOT, [])
    case Ask(m) => CachedRoot(h, slots, capacity, m)
  }

  function Answers(h: Hasher, slots: Slots<Digest>, capacity: nat, queries: seq<Query>): (r: seq<Digest>)
    ensures |r| == |queries|
    decreases |queries|
  {
    if queries == [] then []
    else
      var (root, slots') := After(h, slots, capacity, queries[0]);
      [root] + Answers(h, slots', capacity, queries[1..])
  }

  // ---- Where an answer comes from --------------------------------------------------

  /** The same cache holding, instead of each root, the map it was computed from. */
  function SourceAfter(tags: Slots<Store>, capacity: nat, q: Query): (Store, Slots<Store>)
  {
    match q
    case ClearCache => (map[], [])
    case Ask(m) => if m == map[] then (map[], tags) else Serve(tags, capacity, KeyOf(m), m)
  }

  /** For each query of a run the map whose root is served.  No hash is involved. */
  function Sources(tags: Slots<Store>, capacity: nat, queries: seq<Query>): (r: seq<Store>)
    ensures |r| == |queries|
    decreases |queries|
  {
    if queries == [] then []
    else
      var (m, tags') := SourceAfter(tags, capacity, queries[0]);
      [m] + Sources(tags', capacity, queries[1..])
  }

  function MapSlots<V, W>(f: V -> W, slots: Slots<V>): (r: Slots<W>)
    ensures |r| == |slots|
  {
    seq(|slots|, i requires 0 <= i < |slots| => Slot(slots[i].key, f(slots[i].value)))
  }

  lemma {:induction false} FindMaps<V, W>(f: V -> W, slots: Slots<V>, key: CacheKey)
    ensures Find(MapSlots(f, slots), key) == Find(slots, key)
    decreases |slots|
  {
    if slots != [] {
      assert MapSlots(f, slots)[1..] == MapSlots(f, slots[1..]);
      FindMaps(f, slots[1..], key);
    }
  }

  lemma InsertMaps<V, W>(f: V -> W, slots: Slots<V>, slot: Slot<V>, capacity: nat)
    ensures Insert(MapSlots(f, slots), Slot(slot.key, f(slot.value)), capacity)
         == MapSlots(f, Insert(slots, slot, capacity))
  {
    var i := Find(slots, slot.key);
    FindMaps(f, slots, slot.key);
    assert Dropped(MapSlots(f, slots), i) == MapSlots(f, Dropped(slots, i));
    ConsMaps(f, slot, Dropped(slots, i), capacity);
  }

  lemma ConsMaps<V, W>(f: V -> W, slot: Slot<V>, rest: Slots<V>, capacity: nat)
    ensures [Slot(slot.key, f(slot.value))] + MapSlots(f, rest) == MapSlots(f, [slot] + rest)
    ensures capacity < |[slot] + rest| ==>
              MapSlots(f, [slot] + rest)[..capacity] == MapSlots(f, ([slot] + rest)[..capacity])
  {
  }

  /** The cache never looks at the values it holds. */
  lemma ServeMaps<V, W>(f: V -> W, slots: Slots<V>, capacity: nat, key: CacheKey, computed: V)
    ensures var (v, slots') := Serve(slots, capacity, key, computed);
            Serve(MapSlots(f, slots), capacity, key, f(computed)) == (f(v), MapSlots(f, slots'))
  {
    var i := Find(slots, key);
    FindMaps(f, slots, key);
    InsertMaps(f, slots, if i < |slots| then slots[i] else Slot(key, computed), capacity);
  }

  function RootOf(h: Hasher): Store -> Digest { m => MerkleRoot(h, m) }

  lemma AfterIsRoot(h: Hasher, tags: Slots<Store>, capacity: nat, q: Query)
    ensures var (m, tags') := SourceAfter(tags, capacity, q);
            After(h, MapSlots(RootOf(h), tags), capacity, q) == (MerkleRoot(h, m), MapSlots(RootOf(h), tags'))
  {
    if q.Ask? && q.m != map[] { ServeMaps(RootOf(h), tags, capacity, KeyOf(q.m), q.m); }
  }

  /** Over every run, whatever was cleared and evicted, each answer is the root of its
      source. */
  lemma {:induction false} AnswersAreRoots(h: Hasher, tags: Slots<Store>, capacity: nat, queries: seq<Query>, i: nat)
    requires i < |queries|
    ensures Answers(h, MapSlots(RootOf(h), tags), capacity, queries)[i]
         == MerkleRoot(h, Sources(tags, capacity, queries)[i])
    decreases |queries|
  {
    AfterIsRoot(h, tags, capacity, queries[0]);
    if i > 0 { AnswersAreRoots(h, SourceAfter(tags, capacity, queries[0]).1, capacity, queries[1..], i - 1); }
  }

  /** Every slot holds a map already seen that has the slot's key. */
  predicate Tagged(tags: Slots<Store>, seen: set<Store>)
  {
    forall s :: s in tags ==> s.value in seen && s.value != map[] && KeyOf(s.value) == s.key
  }

  lemma InsertMembers<V>(slots: Slots<V>, slot: Slot<V>, capacity: nat)
    ensures forall s :: s in Insert(slots, slot, capacity) ==> s == slot || s in slots
  {
  }

  lemma SourceAfterTagged(tags: Slots<Store>, capacity: nat, q: Query, seen: set<Store>)
    requires Tagged(tags, seen)
    ensures var (m, tags') := SourceAfter(tags, capacity, q);
            var seen' := if q.Ask? then seen + {q.m} else seen;
            Tagged(tags', seen') && (q.Ask? ==> SharesKey(q.m, m, seen'))
  {
    if q.Ask? && q.m != map[] {
      var i := Find(tags, KeyOf(q.m));
      InsertMembers(tags, if i < |tags| then tags[i] else Slot(KeyOf(q.m), q.m), capacity);
    }
  }

  ghost function Asked(queries: seq<Query>): set<Store>
  {
    set q | q in queries && q.Ask? :: q.m
  }

  /** A source for a map: itself when empty, and otherwise one of the maps seen that has the
      same size, first and last entry. */
  predicate SharesKey(m: Store, source: Store, seen: set<Store>)
  {
    if m == map[] then source == map[] else source in seen && source != map[] && KeyOf(source) == KeyOf(m)
  }

  lemma SharesKeyStays(m: Store, source: Store, seen: set<Store>, more: set<Store>)
    requires SharesKey(m, source, seen) && seen <= more
    ensures SharesKey(m, source, more)
  {
  }

  lemma SourcesCons(tags: Slots<Store>, capacity: nat, queries: seq<Query>, i: nat)
    requires i < |queries|
    ensures var (m, tags') := SourceAfter(tags, capacity, queries[0]);
            Sources(tags, capacity, queries)[i] == if i == 0 then m else Sources(tags', capacity, queries[1..])[i - 1]
  {
    var (m, tags') := SourceAfter(tags, capacity, queries[0]);
    assert Sources(tags, capacity, queries) == [m] + Sources(tags', capacity, queries[1..]);
  }

  /** The source of an answer is a map asked so far that shares size, first and last entry
      with the map asked for. */
  lemma {:induction false} SourcesShareKeys(
      tags: Slots<Store>, capacity: nat, queries: seq<Query>, seen: set<Store>, i: nat)
    requires Tagged(tags, seen) && i < |queries| && queries[i].Ask?
    ensures SharesKey(queries[i].m, Sources(tags, capacity, queries)[i], seen + Asked(queries[..i + 1]))
    decreases |queries|
  {
    var q := queries[0];
    var (source, tags') := SourceAfter(tags, capacity, q);
    var seen' := if q.Ask? then seen + {q.m} else seen;
    SourceAfterTagged(tags, capacity, q, seen);
    AskedCons(queries, i, seen);
    SourcesCons(tags, capacity, queries, i);
    if i == 0 {
      SharesKeyStays(q.m, source, seen', seen + Asked(queries[..i + 1]));
    } else {
      SourcesShareKeys(tags', capacity, queries[1..], seen', i - 1);
      SharesKeyStays(queries[i].m, Sources(tags', capacity, queries[1..])[i - 1], seen' + Asked(queries[1..][..i]),
                     seen + Asked(queries[..i + 1]));
    }
  }

  /** What the first query and the following ones ask is among what all of them ask. */
  lemma AskedCons(queries: seq<Query>, i: nat, seen: set<Store>)
    requires i < |queries|
    ensures queries[0].Ask? ==> seen + {queries[0].m} <= seen + Asked(queries[..i + 1])
    ensures Asked(queries[1..][..i]) <= Asked(queries[..i + 1])
  {
    assert queries[0] in queries[..i + 1];
    forall w | w in Asked(queries[1..][..i]) ensures w in Asked(queries[..i + 1]) {
      var p :| p in queries[1..][..i] && p.Ask? && p.m == w;
      assert p in queries[..i + 1];
    }
  }

  // ---- When an answer is right -----------------------------------------------------

  /** The answer to a query of a run from an empty cache. */
  function AnswerAt(h: Hasher, capacity: nat, queries: seq<Query>, i: nat): Digest
    requires i < |queries|
  {
    Answers(h, [], capacity, queries)[i]
  }

  function SourceAt(capacity: nat, queries: seq<Query>, i: nat): Store
    requires i < |queries|
  {
    Sources([], capacity, queries)[i]
  }

  /** Everything hashed for the root of a map. */
  ghost function Inputs(h: Hasher, m: Store): set<Bytes>
  {
    if m == map[] then {} else Hashed(h, Entries(m))
  }

  lemma AnswerIsRootOfSource(h: Hasher, capacity: nat, queries: seq<Query>, i: nat)
    requires i < |queries| && queries[i].Ask?
    ensures AnswerAt(h, capacity, queries, i) == MerkleRoot(h, SourceAt(capacity, queries, i))
    ensures SharesKey(queries[i].m, SourceAt(capacity, queries, i), Asked(queries[..i + 1]))
  {
    AnswersAreRoots(h, [], capacity, queries, i);
    assert MapSlots(RootOf(h), []) == [];
    SourcesShareKeys([], capacity, queries, {}, i);
    assert {} + Asked(queries[..i + 1]) == Asked(queries[..i + 1]);
  }

  /** In every run an answer is the true root of the map asked for if and only if the map
      behind the slot that serves it is that map. */
  lemma AnswerIsRightIff(h: Hasher, capacity: nat, queries: seq<Query>, i: nat)
    requires i < |queries| && queries[i].Ask?
    requires FitsLengthPrefix(queries[i].m) && FitsLengthPrefix(SourceAt(capacity, queries, i))
    requires CollisionFree(h, Inputs(h, SourceAt(capacity, queries, i)) + Inputs(h, queries[i].m))
    ensures AnswerAt(h, capacity, queries, i) == MerkleRoot(h, queries[i].m)
            <==> SourceAt(capacity, queries, i) == queries[i].m
  {
    var m, source := queries[i].m, SourceAt(capacity, queries, i);
    AnswerIsRootOfSource(h, capacity, queries, i);
    if m != map[] && MerkleRoot(h, source) == MerkleRoot(h, m) { StoreBinds(h, source, m); }
  }

  ghost predicate KeysIdentify(seen: set<Store>)
  {
    forall a, b :: a in seen && b in seen && a != map[] && b != map[] && KeyOf(a) == KeyOf(b) ==> a == b
  }

  /** The key pins down a map of at most two entries. */
  lemma SmallMapsAreKeyed(a: Store, b: Store)
    requires a != map[] && b != map[] && KeyOf(a) == KeyOf(b) && |a| <= 2
    ensures a == b
  {
    var ka, kb := SortedKeys(a), SortedKeys(b);
    KeyEnds(a, b);
    TwoEnds(a, b, ka, kb);
    SameWalk(a, b, ka, kb);
  }

  /** What equal keys have in common. */
  lemma KeyEnds(a: Store, b: Store)
    requires a != map[] && b != map[] && KeyOf(a) == KeyOf(b)
    ensures var (ka, kb) := (SortedKeys(a), SortedKeys(b));
            var n := |ka| - 1;
            && |ka| == |kb| > 0 && ka[0] == kb[0] && a[ka[0]] == b[kb[0]]
            && ka[n] == kb[n] && a[ka[n]] == b[kb[n]]
  {
  }

  lemma TwoEnds(a: Store, b: Store, ka: seq<string>, kb: seq<string>)
    requires 0 < |ka| == |kb| <= 2
    requires (forall i :: 0 <= i < |ka| ==> ka[i] in a) && (forall i :: 0 <= i < |kb| ==> kb[i] in b)
    requires ka[0] == kb[0] && a[ka[0]] == b[kb[0]]
    requires var n := |ka| - 1; ka[n] == kb[n] && a[ka[n]] == b[kb[n]]
    ensures forall i :: 0 <= i < |ka| ==> ka[i] == kb[i] && a[ka[i]] == b[kb[i]]
  {
    forall i | 0 <= i < |ka| ensures ka[i] == kb[i] && a[ka[i]] == b[kb[i]] {
      assert i == 0 || i == |ka| - 1;
    }
  }

  /** An answer is right if the asked maps are told apart by their keys, and in any case
      for at most two entries. */
  lemma CacheAgrees(h: Hasher, capacity: nat, queries: seq<Query>, i: nat)
    requires i < |queries| && queries[i].Ask?
    requires KeysIdentify(Asked(queries)) || |queries[i].m| <= 2
    ensures AnswerAt(h, capacity, queries, i) == MerkleRoot(h, queries[i].m)
  {
    var m, source := queries[i].m, SourceAt(capacity, queries, i);
    AnswerIsRootOfSource(h, capacity, queries, i);
    AskedSoFar(queries, i);
    if m != map[] && |m| <= 2 { SmallMapsAreKeyed(m, source); }
  }

  lemma AskedSoFar(queries: seq<Query>, i: nat)
    requires i < |queries| && queries[i].Ask?
    ensures Asked(queries[..i + 1]) <= Asked(queries) && queries[i].m in Asked(queries)
  {
    forall w | w in Asked(queries[..i + 1]) ensures w in Asked(queries) {
      var p :| p in queries[..i + 1] && p.Ask? && p.m == w;
      assert p in queries;
    }
    assert queries[i] in queries;
  }

  predicate RightAt(h: Hasher, capacity: nat, queries: seq<Query>, i: nat)
    requires i < |queries| && queries[i].Ask?
  {
    AnswerAt(h, capacity, queries, i) == MerkleRoot(h, queries[i].m)
  }

  predicate RunsOver(queries: seq<Query>, maps: set<Store>)
  {
    forall i :: 0 <= i < |queries| && queries[i].Ask? ==> queries[i].m in maps
  }

  /** Every answer of every run over these maps is right. */
  ghost predicate AlwaysRight(h: Hasher, capacity: nat, maps: set<Store>)
  {
    forall queries: seq<Query>, i: nat :: RunsOver(queries, maps) && i < |queries| && queries[i].Ask? ==>
      RightAt(h, capacity, queries, i)
  }

  /** No two of these maps hash to a collision, and their lengths fit. */
  ghost predicate Hashable(h: Hasher, maps: set<Store>)
  {
    && (forall a :: a in maps ==> FitsLengthPrefix(a))
    && (forall a, b :: a in maps && b in maps ==> CollisionFree(h, Inputs(h, a) + Inputs(h, b)))
  }

  /** A set of maps can be asked in any order, with any clears and evictions, and always
      be answered rightly, if and only if their keys tell them apart. */
  lemma AlwaysRightIff(h: Hasher, capacity: nat, maps: set<Store>)
    requires capacity > 0 && Hashable(h, maps)
    ensures AlwaysRight(h, capacity, maps) <==> KeysIdentify(maps)
  {
    if KeysIdentify(maps) {
      forall queries: seq<Query>, i: nat | RunsOver(queries, maps) && i < |queries| && queries[i].Ask?
        ensures RightAt(h, capacity, queries, i)
      {
        AskedWithin(queries, maps);
        CacheAgrees(h, capacity, queries, i);
      }
    }
    if AlwaysRight(h, capacity, maps) {
      forall a, b | a in maps && b in maps && a != map[] && b != map[] && KeyOf(a) == KeyOf(b) ensures a == b {
        PairDecides(h, capacity, maps, a, b);
        HashablePair(h, maps, a, b);
      }
    }
  }

  lemma AskedWithin(queries: seq<Query>, maps: set<Store>)
    requires RunsOver(queries, maps) && KeysIdentify(maps)
    ensures KeysIdentify(Asked(queries))
  {
    assert Asked(queries) <= maps;
  }

  lemma PairDecides(h: Hasher, capacity: nat, maps: set<Store>, a: Store, b: Store)
    requires capacity > 0 && AlwaysRight(h, capacity, maps)
    requires a in maps && b in maps && a != map[] && b != map[] && KeyOf(a) == KeyOf(b)
    ensures MerkleRoot(h, a) == MerkleRoot(h, b)
  {
    var queries := [Ask(a), Ask(b)];
    assert RunsOver(queries, maps);
    assert RightAt(h, capacity, queries, 1);
    SharedKeyIsServed(h, capacity, a, b);
  }

  lemma HashablePair(h: Hasher, maps: set<Store>, a: Store, b: Store)
    requires Hashable(h, maps) && a in maps && b in maps && a != map[] && b != map[]
    requires MerkleRoot(h, a) == MerkleRoot(h, b)
    ensures a == b
  {
    assert CollisionFree(h, Inputs(h, a) + Inputs(h, b));
    StoreBinds(h, a, b);
  }

  /** Of two maps with the same key asked in turn, the first answers for the second. */
  lemma SharedKeyIsServed(h: Hasher, capacity: nat, a: Store, b: Store)
    requires capacity > 0 && a != map[] && b != map[] && KeyOf(a) == KeyOf(b)
    ensures SourceAt(capacity, [Ask(a), Ask(b)], 1) == a
    ensures AnswerAt(h, capacity, [Ask(a), Ask(b)], 1) == MerkleRoot(h, a)
  {
    var queries := [Ask(a), Ask(b)];
    var tags := SourceAfter([], capacity, Ask(a)).1;
    assert tags == [Slot(KeyOf(a), a)];
    assert queries[1..] == [Ask(b)];
    assert SourceAfter(tags, capacity, Ask(b)).0 == a;
    assert Sources(tags, capacity, [Ask(b)])[0] == a;
    AnswerIsRootOfSource(h, capacity, queries, 1);
  }

  /** An entry strictly between two others is not covered by the key, whatever its value. */
  lemma MiddleEntryIsNotKeyed(m: Store, low: string, mid: string, high: string, value: string)
    requires low in m && mid in m && high in m && StringLess(low, mid) && StringLess(mid, high)
    ensures m != map[] && m[mid := value] != map[] && KeyOf(m[mid := value]) == KeyOf(m)
  {
    InnerKey(m, low, mid, high);
    KeyAfterWrite(m, mid, value);
  }

  /** Writing an existing entry that is at neither end keeps the key. */
  lemma KeyAfterWrite(m: Store, k: string, value: string)
    requires k in m && var ks := SortedKeys(m); ks[0] != k && ks[|ks| - 1] != k
    ensures m != map[] && m[k := value] != map[] && KeyOf(m[k := value]) == KeyOf(m)
  {
    assert m[k := value].Keys == m.Keys;
    KeyOfSame(m, m[k := value]);
  }

  lemma InnerKey(m: Store, low: string, mid: string, high: string)
    requires low in m && mid in m && high in m && StringLess(low, mid) && StringLess(mid, high)
    ensures var ks := SortedKeys(m); |ks| > 0 && ks[0] != mid && ks[|ks| - 1] != mid
  {
    NotFirstKey(m, low, mid);
    NotLastKey(m, mid, high);
  }

  lemma NotFirstKey(m: Store, low: string, mid: string)
    requires low in m && StringLess(low, mid)
    ensures SortedKeys(m)[0] != mid
  {
    SortedKeysAscend(m);
    StringLessIsOther(low, mid);
    NotFirst(SortedKeys(m), StringLess, low, mid);
  }

  lemma NotLastKey(m: Store, mid: string, high: string)
    requires high in m && StringLess(mid, high)
    ensures var ks := SortedKeys(m); ks[|ks| - 1] != mid
  {
    SortedKeysAscend(m);
    StringLessIsOther(mid, high);
    NotLast(SortedKeys(m), StringLess, mid, high);
  }

  lemma StringLessIsOther(a: string, b: string)
    requires StringLess(a, b)
    ensures a != b && !StringLess(b, a)
  {
    StringLessTotal();
    LessIsOther(StringLess, a, b);
  }

  lemma KeyOfSame(a: Store, b: Store)
    requires a != map[] && b != map[] && a.Keys == b.Keys
    requires var ks := SortedKeys(a); a[ks[0]] == b[ks[0]] && a[ks[|ks| - 1]] == b[ks[|ks| - 1]]
    ensures KeyOf(a) == KeyOf(b)
  {
    SortedKeysOfKeys(a, b);
  }

  lemma SortedKeysOfKeys(a: Store, b: Store)
    requires a.Keys == b.Keys
    ensures |a| == |b| && SortedKeys(a) == SortedKeys(b)
  {
    assert |a.Keys| == |a| && |b.Keys| == |b|;
  }

  /** Three entries are enough to share a key without being equal. */
  lemma ThreeEntriesShareKey()
    ensures var a := map["a" := "1", "b" := "2", "c" := "3"];
            var b := a["b" := "9"];
            a != map[] && b != map[] && a != b && KeyOf(a) == KeyOf(b)
  {
    var a := map["a" := "1", "b" := "2", "c" := "3"];
    AbcOrder();
    MiddleEntryIsNotKeyed(a, "a", "b", "c", "9");
    assert a["b"] != "9";
  }

  lemma AbcOrder()
    ensures StringLess("a", "b") && StringLess("b", "c") && StringLess("a", "c")
    ensures !StringLess("b", "a") && !StringLess("c", "b") && !StringLess("c", "a")
  {
    assert "a"[1..] == "" && "b"[1..] == "" && "c"[1..] == "";
    assert Utf8("a") == [97] && Utf8("b") == [98] && Utf8("c") == [99];
  }
}
