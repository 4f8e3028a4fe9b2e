/** The replicated state of the chain and the key-value image that its root commits to. */
module ChainState {
  import opened MachineInts
  import opened Text
  import opened Merkle
  import opened StoreRoot

  type Word = b: Bytes | |b| == 32 witness seq(32, _ => 0)

  datatype VmState = VmState(
    storage: map<(Word, Word), Word>,
    code: map<Word, Bytes>,
    nonces: map<Word, U64>,
    balances: map<Word, U128>)

  datatype KvState = KvState(
    kv: map<string, string>,
    balances: map<string, U64>,
    nonces: map<string, U64>,
    burned: U64,
    vm: VmState)

  /** One entry of the state, before it is turned into a key and a value. */
  datatype Cell =
    | Kv(key: string)
    | Balance(addr: string)
    | Nonce(addr: string)
    | Burned
    | Storage(contract: Word, slot: Word)
    | Code(contract: Word)

  function CellKey(c: Cell): string
  {
    match c
    case Kv(k) => "kv:" + k
    case Balance(a) => "bal:" + a
    case Nonce(a) => "nonce:" + a
    case Burned => "burned"
    case Storage(w, slot) => "vm_storage:" + HexEncode(w) + ":" + HexEncode(slot)
    case Code(w) => "vm_code:" + HexEncode(w)
  }

  function Cells(s: KvState): set<Cell>
  {
    KvCells(s) + BalanceCells(s) + NonceCells(s) + {Burned} + StorageCells(s) + CodeCells(s)
  }

  function KvCells(s: KvState): set<Cell> { set k | k in s.kv :: Kv(k) }

  function BalanceCells(s: KvState): set<Cell> { set a | a in s.balances :: Balance(a) }

  function NonceCells(s: KvState): set<Cell> { set a | a in s.nonces :: Nonce(a) }

  function StorageCells(s: KvState): set<Cell> { set p | p in s.vm.storage :: Storage(p.0, p.1) }

  function CodeCells(s: KvState): set<Cell> { set w | w in s.vm.code :: Code(w) }

  predicate Present(s: KvState, c: Cell)
  {
    match c
    case Kv(k) => k in s.kv
    case Balance(a) => a in s.balances
    case Nonce(a) => a in s.nonces
    case Burned => true
    case Storage(w, slot) => (w, slot) in s.vm.storage
    case Code(w) => w in s.vm.code
  }

  lemma CellPresent(s: KvState, c: Cell)
    ensures c in Cells(s) <==> Present(s, c)
  {
    match c
    case Storage(w, slot) =>
      if Present(s, c) {
        assert (w, slot) in s.vm.storage;
        assert Storage((w, slot).0, (w, slot).1) == c;
      }
    case _ =>
  }

  function CellValue(h: Hasher, s: KvState, c: Cell): string
  {
    match c
    case Kv(k) => if k in s.kv then s.kv[k] else ""
    case Balance(a) => Dec(Get(s.balances, a))
    case Nonce(a) => Dec(Get(s.nonces, a))
    case Burned => Dec(s.burned)
    case Storage(w, slot) => if (w, slot) in s.vm.storage then HexEncode(s.vm.storage[(w, slot)]) else ""
    case Code(w) => if w in s.vm.code then HexEncode(h(s.vm.code[w])) else ""
  }

  function ValueIn(h: Hasher, s: KvState): Cell -> string { c => CellValue(h, s, c) }

  /** The prefixes keep the kinds apart, and within a kind the key names the entry. */
  lemma CellKeyInjective(c: Cell, d: Cell)
    requires CellKey(c) == CellKey(d)
    ensures c == d
  {
    KindsApart(c, d);
    var key := CellKey(c);
    match c
    case Kv(k) => assert key[3..] == k && key[3..] == d.key;
    case Balance(a) => assert key[4..] == a && key[4..] == d.addr;
    case Nonce(a) => assert key[6..] == a && key[6..] == d.addr;
    case Burned =>
    case Storage(w, slot) => StorageKeyInjective(w, slot, d.contract, d.slot);
    case Code(w) =>
      assert key[8..] == HexEncode(w) && key[8..] == HexEncode(d.contract);
      HexInjective(w, d.contract);
  }

  lemma StorageKeyInjective(w1: Word, s1: Word, w2: Word, s2: Word)
    requires CellKey(Storage(w1, s1)) == CellKey(Storage(w2, s2))
    ensures w1 == w2 && s1 == s2
  {
    HexRoundTrip(w1);
    HexRoundTrip(w2);
    var key := CellKey(Storage(w1, s1));
    assert key[11..75] == HexEncode(w1) && key[11..75] == HexEncode(w2);
    assert key[76..] == HexEncode(s1) && key[76..] == HexEncode(s2);
    HexInjective(w1, w2);
    HexInjective(s1, s2);
  }

  /** A number for each kind of entry, readable off the first four characters of the key. */
  function Kind(c: Cell): nat
  {
    match c
    case Kv(_) => 0 case Balance(_) => 1 case Nonce(_) => 2
    case Burned => 3 case Storage(_, _) => 4 case Code(_) => 5
  }

  function KindOfKey(key: string): nat
    requires |key| >= 3
  {
    if key[0] == 'k' then 0
    else if key[0] == 'n' then 2
    else if key[0] == 'b' then (if key[1] == 'a' then 1 else 3)
    else if |key| > 3 && key[3] == 's' then 4
    else 5
  }

  lemma KindsApart(c: Cell, d: Cell)
    requires CellKey(c) == CellKey(d)
    ensures Kind(c) == Kind(d)
  {
    KindFromKey(c);
    KindFromKey(d);
  }

  lemma KindFromKey(c: Cell)
    ensures |CellKey(c)| >= 3 && KindOfKey(CellKey(c)) == Kind(c)
  {
  }

  lemma CellKeysInjective()
    ensures Injective(CellKey)
  {
    forall c, d | CellKey(c) == CellKey(d) ensures c == d { CellKeyInjective(c, d); }
  }

  ghost predicate Injective<C(!new)>(key: C -> string)
  {
    forall c, d :: key(c) == key(d) ==> c == d
  }

  /** The map from keys to values over a set of entries: `combined` in the source. */
  ghost function Image<C(!new)>(cells: set<C>, key: C -> string, value: C -> string): Store
    decreases |cells|
  {
    if cells == {} then map[]
    else var c :| c in cells; Image(cells - {c}, key, value)[key(c) := value(c)]
  }

  lemma {:induction false} ImageKeys<C(!new)>(cells: set<C>, key: C -> string, value: C -> string, k: string)
    ensures k in Image(cells, key, value) <==> exists c :: c in cells && key(c) == k
    decreases |cells|
  {
    if cells != {} {
      var c :| c in cells && Image(cells, key, value) == Image(cells - {c}, key, value)[key(c) := value(c)];
      ImageKeys(cells - {c}, key, value, k);
    }
  }

  lemma {:induction false} ImageValue<C(!new)>(cells: set<C>, key: C -> string, value: C -> string, c: C)
    requires Injective(key) && c in cells
    ensures key(c) in Image(cells, key, value) && Image(cells, key, value)[key(c)] == value(c)
    decreases |cells|
  {
    var d :| d in cells && Image(cells, key, value) == Image(cells - {d}, key, value)[key(d) := value(d)];
    if c != d { ImageValue(cells - {d}, key, value, c); }
  }

  lemma ImageInsert<C(!new)>(cells: set<C>, key: C -> string, value: C -> string, c: C)
    requires Injective(key)
    ensures Image(cells + {c}, key, value) == Image(cells, key, value)[key(c) := value(c)]
  {
    var a, m := Image(cells + {c}, key, value), Image(cells, key, value);
    forall k ensures (k in a <==> k in m || k == key(c)) {
      ImageKeys(cells + {c}, key, value, k);
      ImageKeys(cells, key, value, k);
      if d :| d in cells && key(d) == k { assert d in cells + {c}; }
      assert c in cells + {c};
    }
    forall k | k in a ensures a[k] == if k == key(c) then value(c) else m[k] {
      ImageKeys(cells + {c}, key, value, k);
      var d :| d in cells + {c} && key(d) == k;
      ImageValue(cells + {c}, key, value, d);
      if d in cells { ImageValue(cells, key, value, d); }
    }
  }

  ghost function Combined(h: Hasher, s: KvState): Store
  {
    Image(Cells(s), CellKey, ValueIn(h, s))
  }

  /** The root of a state with the tree computed rather than looked up in the cache. */
  ghost function Root(h: Hasher, s: KvState): Digest { MerkleRoot(h, Combined(h, s)) }

  /** Inserting entries one by one gives the same image in any order. */
  method InsertCells<C(==, !new)>(
      cells: set<C>, key: C -> string, value: C -> string, ghost done: set<C>, combined: Store)
    returns (r: Store)
    requires Injective(key) && combined == Image(done, key, value)
    ensures r == Image(done + cells, key, value)
  {
    r := combined;
    var todo := cells;
    ghost var all := done;
    while todo != {}
      invariant all + todo == done + cells
      invariant r == Image(all, key, value)
      decreases |todo|
    {
      var c :| c in todo;
      ImageInsert(all, key, value, c);
      r := r[key(c) := value(c)];
      MoveOne(all, todo, c);
      todo, all := todo - {c}, all + {c};
    }
    assert all + {} == all;
  }

  lemma MoveOne<C>(all: set<C>, todo: set<C>, c: C)
    requires c in todo
    ensures (all + {c}) + (todo - {c}) == all + todo
  {
  }

  /** `KvState::root` up to the Merkle call: the six groups inserted in source order. */
  method BuildCombined(h: Hasher, s: KvState) returns (combined: Store)
    ensures combined == Combined(h, s)
  {
    CellKeysInjective();
    var value := ValueIn(h, s);
    combined := InsertCells(KvCells(s), CellKey, value, {}, map[]);
    ghost var done := {} + KvCells(s);
    assert done == KvCells(s);
    combined := InsertCells(BalanceCells(s), CellKey, value, done, combined);
    done := done + BalanceCells(s);
    combined := InsertCells(NonceCells(s), CellKey, value, done, combined);
    done := done + NonceCells(s);
    combined := InsertCells({Burned}, CellKey, value, done, combined);
    done := done + {Burned};
    combined := InsertCells(StorageCells(s), CellKey, value, done, combined);
    done := done + StorageCells(s);
    combined := InsertCells(CodeCells(s), CellKey, value, done, combined);
  }

  // ---- Binding ---------------------------------------------------------------------

  /** Everything hashed to obtain the root: the tree and the contract codes. */
  ghost function HashedForRoot(h: Hasher, s: KvState): set<Bytes>
  {
    BurnedIsPresent(h, s);
    Hashed(h, Entries(Combined(h, s))) + Codes(s)
  }

  function Codes(s: KvState): set<Bytes> { set w | w in s.vm.code :: s.vm.code[w] }

  lemma BurnedIsPresent(h: Hasher, s: KvState)
    ensures Combined(h, s) != map[]
  {
    CellKeysInjective();
    assert Burned in Cells(s);
    ImageValue(Cells(s), CellKey, ValueIn(h, s), Burned);
  }

  /** Equal images hold the same entries with the same printed values. */
  lemma ImageBinds(h: Hasher, s: KvState, t: KvState, c: Cell)
    requires Combined(h, s) == Combined(h, t)
    ensures Present(s, c) <==> Present(t, c)
    ensures Present(s, c) ==> CellValue(h, s, c) == CellValue(h, t, c)
  {
    CellPresent(s, c);
    CellPresent(t, c);
    if c in Cells(s) { OneSided(h, s, t, c); }
    if c in Cells(t) { OneSided(h, t, s, c); }
  }

  lemma OneSided(h: Hasher, s: KvState, t: KvState, c: Cell)
    requires Combined(h, s) == Combined(h, t) && c in Cells(s)
    ensures c in Cells(t) && CellValue(h, s, c) == CellValue(h, t, c)
  {
    CellKeysInjective();
    ImageValue(Cells(s), CellKey, ValueIn(h, s), c);
    ImageKeys(Cells(t), CellKey, ValueIn(h, t), CellKey(c));
    ImageValue(Cells(t), CellKey, ValueIn(h, t), c);
    assert ValueIn(h, s)(c) == ValueIn(h, t)(c);
  }

  /** Equal key-value store, balances, nonces, burned total, VM storage and VM code. */
  predicate SameCommitted(s: KvState, t: KvState)
  {
    && s.kv == t.kv && s.balances == t.balances && s.nonces == t.nonces && s.burned == t.burned
    && s.vm.storage == t.vm.storage && s.vm.code == t.vm.code
  }

  /** Equal computed roots mean the same committed state, unless the hash function collides
      on an input of the computation. */
  lemma RootBinds(h: Hasher, s: KvState, t: KvState)
    requires FitsLengthPrefix(Combined(h, s)) && FitsLengthPrefix(Combined(h, t))
    requires CollisionFree(h, HashedForRoot(h, s) + HashedForRoot(h, t))
    requires Root(h, s) == Root(h, t)
    ensures SameCommitted(s, t)
  {
    CombinedBinds(h, s, t);
    PlainPartsBind(h, s, t);
    StorageBinds(h, s, t);
    FewerCollide(h, Codes(s) + Codes(t), HashedForRoot(h, s) + HashedForRoot(h, t));
    CodeBinds(h, s, t);
  }

  lemma CombinedBinds(h: Hasher, s: KvState, t: KvState)
    requires FitsLengthPrefix(Combined(h, s)) && FitsLengthPrefix(Combined(h, t))
    requires CollisionFree(h, HashedForRoot(h, s) + HashedForRoot(h, t))
    requires Root(h, s) == Root(h, t)
    ensures Combined(h, s) == Combined(h, t)
  {
    var a, b := Combined(h, s), Combined(h, t);
    BurnedIsPresent(h, s);
    BurnedIsPresent(h, t);
    FewerCollide(h, Hashed(h, Entries(a)) + Hashed(h, Entries(b)), HashedForRoot(h, s) + HashedForRoot(h, t));
    StoreBinds(h, a, b);
  }

  lemma PlainPartsBind(h: Hasher, s: KvState, t: KvState)
    requires Combined(h, s) == Combined(h, t)
    ensures s.kv == t.kv && s.balances == t.balances && s.nonces == t.nonces && s.burned == t.burned
  {
    KvBinds(h, s, t);
    BalancesBind(h, s, t);
    NoncesBind(h, s, t);
    ImageBinds(h, s, t, Burned);
    DecInjective(s.burned, t.burned);
  }

  lemma KvBinds(h: Hasher, s: KvState, t: KvState)
    requires Combined(h, s) == Combined(h, t)
    ensures s.kv == t.kv
  {
    forall k ensures (k in s.kv <==> k in t.kv) && (k in s.kv ==> s.kv[k] == t.kv[k]) {
      ImageBinds(h, s, t, Kv(k));
    }
  }

  lemma BalancesBind(h: Hasher, s: KvState, t: KvState)
    requires Combined(h, s) == Combined(h, t)
    ensures s.balances == t.balances
  {
    forall a ensures (a in s.balances <==> a in t.balances) && (a in s.balances ==> s.balances[a] == t.balances[a]) {
      ImageBinds(h, s, t, Balance(a));
      if a in s.balances { DecInjective(s.balances[a], t.balances[a]); }
    }
  }

  lemma NoncesBind(h: Hasher, s: KvState, t: KvState)
    requires Combined(h, s) == Combined(h, t)
    ensures s.nonces == t.nonces
  {
    forall a ensures (a in s.nonces <==> a in t.nonces) && (a in s.nonces ==> s.nonces[a] == t.nonces[a]) {
      ImageBinds(h, s, t, Nonce(a));
      if a in s.nonces { DecInjective(s.nonces[a], t.nonces[a]); }
    }
  }

  lemma StorageBinds(h: Hasher, s: KvState, t: KvState)
    requires Combined(h, s) == Combined(h, t)
    ensures s.vm.storage == t.vm.storage
  {
    forall p: (Word, Word)
      ensures (p in s.vm.storage <==> p in t.vm.storage)
      ensures p in s.vm.storage ==> s.vm.storage[p] == t.vm.storage[p]
    {
      SlotBinds(h, s, t, p);
    }
  }

  lemma SlotBinds(h: Hasher, s: KvState, t: KvState, p: (Word, Word))
    requires Combined(h, s) == Combined(h, t)
    ensures (p in s.vm.storage <==> p in t.vm.storage)
    ensures p in s.vm.storage ==> s.vm.storage[p] == t.vm.storage[p]
  {
    ImageBinds(h, s, t, Storage(p.0, p.1));
    assert (p.0, p.1) == p;
    if p in s.vm.storage { HexInjective(s.vm.storage[p], t.vm.storage[p]); }
  }

  lemma CodeBinds(h: Hasher, s: KvState, t: KvState)
    requires Combined(h, s) == Combined(h, t)
    requires CollisionFree(h, Codes(s) + Codes(t))
    ensures s.vm.code == t.vm.code
  {
    forall w: Word
      ensures (w in s.vm.code <==> w in t.vm.code)
      ensures w in s.vm.code ==> s.vm.code[w] == t.vm.code[w]
    {
      ContractBinds(h, s, t, w);
    }
  }

  lemma ContractBinds(h: Hasher, s: KvState, t: KvState, w: Word)
    requires Combined(h, s) == Combined(h, t)
    requires CollisionFree(h, Codes(s) + Codes(t))
    ensures (w in s.vm.code <==> w in t.vm.code)
    ensures w in s.vm.code ==> s.vm.code[w] == t.vm.code[w]
  {
    ImageBinds(h, s, t, Code(w));
    if w in s.vm.code {
      HexInjective(h(s.vm.code[w]), h(t.vm.code[w]));
      assert Separate(h, Codes(s) + Codes(t), s.vm.code[w], t.vm.code[w]);
    }
  }

  /** The committed parts determine the image, whatever else the states hold. */
  lemma CommittedGiveImage(h: Hasher, s: KvState, t: KvState)
    requires SameCommitted(s, t)
    ensures Combined(h, s) == Combined(h, t)
  {
    assert Cells(t) == Cells(s);
    forall c ensures ValueIn(h, s)(c) == ValueIn(h, t)(c) {
      assert CellValue(h, s, c) == CellValue(h, t, c);
    }
    CellKeysInjective();
    ImageSame(Cells(s), CellKey, ValueIn(h, s), ValueIn(h, t));
  }

  /** Computed roots are equal if and only if the committed parts are. */
  lemma RootsEqualIff(h: Hasher, s: KvState, t: KvState)
    requires FitsLengthPrefix(Combined(h, s)) && FitsLengthPrefix(Combined(h, t))
    requires CollisionFree(h, HashedForRoot(h, s) + HashedForRoot(h, t))
    ensures Root(h, s) == Root(h, t) <==> SameCommitted(s, t)
  {
    if Root(h, s) == Root(h, t) { RootBinds(h, s, t); }
    if SameCommitted(s, t) { CommittedGiveImage(h, s, t); }
  }

  /** The accounts kept inside the virtual machine are outside the commitment. */
  lemma RootIgnoresVmAccounts(h: Hasher, s: KvState, nonces: map<Word, U64>, balances: map<Word, U128>)
    ensures Root(h, s.(vm := s.vm.(nonces := nonces, balances := balances))) == Root(h, s)
  {
    CommittedGiveImage(h, s, s.(vm := s.vm.(nonces := nonces, balances := balances)));
  }

  lemma ImageSame<C(!new)>(cells: set<C>, key: C -> string, v: C -> string, w: C -> string)
    requires Injective(key) && forall c :: v(c) == w(c)
    ensures Image(cells, key, v) == Image(cells, key, w)
  {
    var a, b := Image(cells, key, v), Image(cells, key, w);
    forall k ensures (k in a <==> k in b) && (k in a ==> a[k] == b[k]) {
      ImageKeys(cells, key, v, k);
      ImageKeys(cells, key, w, k);
      if c :| c in cells && key(c) == k {
        ImageValue(cells, key, v, c);
        ImageValue(cells, key, w, c);
      }
    }
  }
}
