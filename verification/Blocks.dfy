/** Building and verifying blocks, and what every accepted block guarantees. */
module Blocks {
  import opened MachineInts
  import opened Text
  import opened Merkle
  import opened StoreRoot
  import opened RootCache
  import opened ChainState
  import opened CachedState
  import opened Execution
  import opened ExecutionTheorems
  import opened Executor
  import opened Batches

  // ---- Blocks ----------------------------------------------------------------------

  datatype Header = Header(
    height: U64, round: U64, prev: Digest, proposerPk: Bytes, txRoot: Digest, receiptsRoot: Digest,
    stateRoot: Digest, baseFee: U64, gasUsed: U64, execGasUsed: U64, timestamp: U64)

  datatype Block = Block(header: Header, txs: seq<Tx>)

  /** The three commitments in a header, as pure functions. */
  datatype Roots = Roots(ofTxs: seq<Tx> -> Digest, ofReceipts: seq<Receipt> -> Digest, ofState: KvState -> Digest)

  function ParamsOf(env: Env, proposer: string, baseFee: U64, maxGas: U64, config: Config): Params
  {
    Params(env, proposer, baseFee, if maxGas == 0 then config.defaultMaxGas else maxGas, config.verifySignatures)
  }

  function Execute(p: Params, config: Config, prev: KvState, txs: seq<Tx>): (Exec, Outcome)
  {
    if |txs| > config.parallelThreshold then ExecuteParallel(p, Start(prev), txs)
    else ExecuteBatch(p, Start(prev), txs)
  }

  /** `build_block`: an execution error is logged and the block is built from whatever
      was executed; only an abort yields no block. */
  function BuildBlock(
      env: Env, roots: Roots, height: U64, round: U64, prevHash: Digest, proposerPk: Bytes, proposer: string,
      prev: KvState, baseFee: U64, txs: seq<Tx>, maxGas: U64, timestamp: U64, config: Config)
    : Option<(Block, KvState, seq<Receipt>)>
  {
    var (e, out) := Execute(ParamsOf(env, proposer, baseFee, maxGas, config), config, prev, txs);
    if out == Aborted then None
    else
      Some((Assemble(roots, height, round, prevHash, proposerPk, baseFee, txs, timestamp, e), e.state, e.receipts))
  }

  datatype Verdict = Accepted(state: KvState, receipts: seq<Receipt>) | Rejected | VerifierAborted

  function VerifyBlock(
      env: Env, roots: Roots, prev: KvState, block: Block, proposer: string, maxGas: U64, config: Config): Verdict
  {
    var hd := block.header;
    if |hd.proposerPk| != 32 then Rejected
    else if roots.ofTxs(block.txs) != hd.txRoot then Rejected
    else
      var (e, out) := Execute(ParamsOf(env, proposer, hd.baseFee, maxGas, config), config, prev, block.txs);
      if out == Aborted then VerifierAborted
      else if out != Done then Rejected
      else if e.gasUsed != hd.gasUsed then Rejected
      else if roots.ofReceipts(e.receipts) != hd.receiptsRoot then Rejected
      else if roots.ofState(e.state) != hd.stateRoot then Rejected
      else Accepted(e.state, e.receipts)
  }

  /** The block, state and receipts that an execution leads to. */
  function Assemble(
      roots: Roots, height: U64, round: U64, prevHash: Digest, proposerPk: Bytes, baseFee: U64, txs: seq<Tx>,
      timestamp: U64, e: Exec): Block
  {
    Block(Header(height, round, prevHash, proposerPk, roots.ofTxs(txs), roots.ofReceipts(e.receipts),
                 roots.ofState(e.state), baseFee, e.gasUsed, e.gasUsed, timestamp),
          txs)
  }

  /** A block that carries the commitments of an execution gets the verdict of that
      execution: accepted with its state and receipts if and only if the key has 32 bytes
      and no error was raised. */
  lemma VerifyAssembled(
      env: Env, roots: Roots, prev: KvState, block: Block, proposer: string, maxGas: U64, config: Config,
      e: Exec, out: Outcome)
    requires Execute(ParamsOf(env, proposer, block.header.baseFee, maxGas, config), config, prev, block.txs)
          == (e, out)
    requires out != Aborted && block.header.txRoot == roots.ofTxs(block.txs)
    requires block.header.gasUsed == e.gasUsed && block.header.receiptsRoot == roots.ofReceipts(e.receipts)
    requires block.header.stateRoot == roots.ofState(e.state)
    ensures VerifyBlock(env, roots, prev, block, proposer, maxGas, config)
         == if |block.header.proposerPk| == 32 && out == Done then Accepted(e.state, e.receipts) else Rejected
  {
  }

  /** A built block verifies, with exactly the built state and receipts, if and only if
      the key has 32 bytes and execution raised no error. */
  lemma VerifyBuilt(
      env: Env, roots: Roots, height: U64, round: U64, prevHash: Digest, proposerPk: Bytes, proposer: string,
      prev: KvState, baseFee: U64, txs: seq<Tx>, maxGas: U64, timestamp: U64, config: Config)
    ensures var built := BuildBlock(env, roots, height, round, prevHash, proposerPk, proposer, prev, baseFee, txs,
                                    maxGas, timestamp, config);
            var out := Execute(ParamsOf(env, proposer, baseFee, maxGas, config), config, prev, txs).1;
            && (built.None? <==> out == Aborted)
            && (built.Some? ==>
                  var (block, st, rs) := built.value;
                  VerifyBlock(env, roots, prev, block, proposer, maxGas, config)
                  == if |proposerPk| == 32 && out == Done then Accepted(st, rs) else Rejected)
  {
    var (e, out) := Execute(ParamsOf(env, proposer, baseFee, maxGas, config), config, prev, txs);
    if out != Aborted {
      var block := Assemble(roots, height, round, prevHash, proposerPk, baseFee, txs, timestamp, e);
      VerifyAssembled(env, roots, prev, block, proposer, maxGas, config, e, out);
    }
  }

  /** Execution reaches `execute_batch`, directly or through the fallback of the parallel
      path. */
  predicate Sequential(config: Config, txs: seq<Tx>)
  {
    |txs| <= config.parallelThreshold || |txs| <= QUANTUM_PARALLEL_THRESHOLD || !config.verifySignatures
  }

  /** An accepted block carries the outcome of its execution. */
  lemma AcceptedWasExecuted(
      env: Env, roots: Roots, prev: KvState, block: Block, proposer: string, maxGas: U64, config: Config)
    requires VerifyBlock(env, roots, prev, block, proposer, maxGas, config).Accepted?
    ensures var p := ParamsOf(env, proposer, block.header.baseFee, maxGas, config);
            var (e, out) := Execute(p, config, prev, block.txs);
            && out == Done && block.header.gasUsed == e.gasUsed
            && VerifyBlock(env, roots, prev, block, proposer, maxGas, config) == Accepted(e.state, e.receipts)
  {
  }

  /** Every accepted block, on any path and by whomever it was built, has one receipt per
      transaction in order, and gas equal to the receipts' total and within the limit. */
  lemma AcceptedHasReceipts(
      env: Env, roots: Roots, prev: KvState, block: Block, proposer: string, maxGas: U64, config: Config)
    requires ParamsOf(env, proposer, block.header.baseFee, maxGas, config).maxGas < U64_MAX
    requires VerifyBlock(env, roots, prev, block, proposer, maxGas, config).Accepted?
    ensures var v := VerifyBlock(env, roots, prev, block, proposer, maxGas, config);
            var p := ParamsOf(env, proposer, block.header.baseFee, maxGas, config);
            && |v.receipts| == |block.txs|
            && (forall i :: 0 <= i < |block.txs| ==> v.receipts[i].txHash == env.txHash(block.txs[i]))
            && block.header.gasUsed == TotalGas(v.receipts) && (block.txs != [] ==> TotalGas(v.receipts) <= p.maxGas)
  {
    var p := ParamsOf(env, proposer, block.header.baseFee, maxGas, config);
    AcceptedWasExecuted(env, roots, prev, block, proposer, maxGas, config);
    if Sequential(config, block.txs) {
      BatchAccounted(p, prev, block.txs);
    } else {
      ParallelAllOrNothing(p, Start(prev), block.txs);
      var rs := Workers(p, prev, block.txs);
      assert [] + ReceiptsOf(rs) == ReceiptsOf(rs);
      forall i | 0 <= i < |block.txs| ensures ReceiptsOf(rs)[i].txHash == env.txHash(block.txs[i]) {
        WorkersNameTxs(p, prev, block.txs, i);
      }
    }
  }

  /** On the sequential path, or on any path when fees are charged and the supply is below
      2^64-1, an accepted block also has distinct hashes and the state of applying its
      transactions one after the other. */
  lemma AcceptedIsAccounted(
      env: Env, roots: Roots, prev: KvState, block: Block, proposer: string, maxGas: U64, config: Config)
    requires Sequential(config, block.txs) || (Supply(prev) < U64_MAX && block.header.baseFee >= 1)
    requires ParamsOf(env, proposer, block.header.baseFee, maxGas, config).maxGas < U64_MAX
    requires VerifyBlock(env, roots, prev, block, proposer, maxGas, config).Accepted?
    ensures var v := VerifyBlock(env, roots, prev, block, proposer, maxGas, config);
            && |v.receipts| == |block.txs|
            && (forall i, j :: 0 <= i < j < |block.txs| ==> v.receipts[i].txHash != v.receipts[j].txHash)
            && ApplyAll(env, prev, block.txs, block.header.baseFee, proposer) == Some(v.state)
  {
    var p := ParamsOf(env, proposer, block.header.baseFee, maxGas, config);
    AcceptedWasExecuted(env, roots, prev, block, proposer, maxGas, config);
    if !Sequential(config, block.txs) { ParallelNeverCommits(p, Start(prev), block.txs); }
    BatchAccounted(p, prev, block.txs);
  }

  /** Execution keeps the supply, whatever the path, the base fee and the outcome. */
  lemma ExecuteConserves(p: Params, config: Config, prev: KvState, txs: seq<Tx>)
    requires Supply(prev) < U64_MAX
    ensures Supply(Execute(p, config, prev, txs).0.state) == Supply(prev)
  {
    BatchConserves(p, Start(prev), txs);
    ParallelConserves(p, Start(prev), txs);
  }

  /** Every built block keeps the total supply. */
  lemma BuiltBlockConserves(
      env: Env, roots: Roots, height: U64, round: U64, prevHash: Digest, proposerPk: Bytes, proposer: string,
      prev: KvState, baseFee: U64, txs: seq<Tx>, maxGas: U64, timestamp: U64, config: Config)
    requires Supply(prev) < U64_MAX
    ensures var b := BuildBlock(env, roots, height, round, prevHash, proposerPk, proposer, prev, baseFee, txs, maxGas,
                                timestamp, config);
            b.Some? ==> Supply(b.value.1) == Supply(prev)
  {
    ExecuteConserves(ParamsOf(env, proposer, baseFee, maxGas, config), config, prev, txs);
  }

  /** Every accepted block keeps the total supply, also one whose header sets the base fee
      to zero. */
  lemma AcceptedBlockConserves(
      env: Env, roots: Roots, prev: KvState, block: Block, proposer: string, maxGas: U64, config: Config)
    requires Supply(prev) < U64_MAX && VerifyBlock(env, roots, prev, block, proposer, maxGas, config).Accepted?
    ensures Supply(VerifyBlock(env, roots, prev, block, proposer, maxGas, config).state) == Supply(prev)
  {
    AcceptedWasExecuted(env, roots, prev, block, proposer, maxGas, config);
    ExecuteConserves(ParamsOf(env, proposer, block.header.baseFee, maxGas, config), config, prev, block.txs);
  }

  lemma AcceptedRoot(
      env: Env, roots: Roots, prev: KvState, block: Block, proposer: string, maxGas: U64, config: Config)
    ensures var v := VerifyBlock(env, roots, prev, block, proposer, maxGas, config);
            v.Accepted? ==> roots.ofState(v.state) == block.header.stateRoot
  {
  }

  /** The node that verifies gets the root of this state from its own cache. */
  ghost predicate RootFromCache(h: Hasher, roots: Roots, p: History, s: KvState)
  {
    AsksFor(h, p, s) && roots.ofState(s) == RootIn(h, p, s)
  }

  /** A block assembled by one node and verified by another that executes it alike, each
      with roots from its own cache, is accepted if and only if the key has 32 bytes, no
      error was raised, and the same map is behind the roots both nodes get. */
  lemma VerifyAcrossCaches(
      h: Hasher, env: Env, roots1: Roots, p: History, roots2: Roots, q: History, prev: KvState, block: Block,
      proposer: string, maxGas: U64, config: Config, e: Exec, out: Outcome)
    requires Execute(ParamsOf(env, proposer, block.header.baseFee, maxGas, config), config, prev, block.txs)
          == (e, out)
    requires out != Aborted && block.header.txRoot == roots2.ofTxs(block.txs)
    requires block.header.gasUsed == e.gasUsed && block.header.receiptsRoot == roots2.ofReceipts(e.receipts)
    requires block.header.stateRoot == roots1.ofState(e.state)
    requires RootFromCache(h, roots1, p, e.state) && RootFromCache(h, roots2, q, e.state)
    requires FitsLengthPrefix(SourceIn(h, p, e.state)) && FitsLengthPrefix(SourceIn(h, q, e.state))
    requires CollisionFree(h, Inputs(h, SourceIn(h, p, e.state)) + Inputs(h, SourceIn(h, q, e.state)))
    ensures VerifyBlock(env, roots2, prev, block, proposer, maxGas, config) == Accepted(e.state, e.receipts) <==>
            && |block.header.proposerPk| == 32 && out == Done
            && SourceIn(h, p, e.state) == SourceIn(h, q, e.state)
  {
    CachedRootsEqualIff(h, p, e.state, q, e.state);
    AcceptedRoot(env, roots2, prev, block, proposer, maxGas, config);
    if roots1.ofState(e.state) == roots2.ofState(e.state) {
      VerifyAssembled(env, roots2, prev, block, proposer, maxGas, config, e, out);
    }
  }

  /** Two nodes that accept the same block, each taking roots from its own cache, agree on
      everything committed, even if they started from different states, as long as each
      cache was asked only for maps that their keys tell apart. */
  lemma AcceptingNodesAgree(
      h: Hasher, env: Env, block: Block, config: Config, maxGas: U64, proposer: string,
      roots1: Roots, p: History, prev1: KvState, s: KvState, rs1: seq<Receipt>,
      roots2: Roots, q: History, prev2: KvState, t: KvState, rs2: seq<Receipt>)
    requires VerifyBlock(env, roots1, prev1, block, proposer, maxGas, config) == Accepted(s, rs1)
    requires VerifyBlock(env, roots2, prev2, block, proposer, maxGas, config) == Accepted(t, rs2)
    requires RootFromCache(h, roots1, p, s) && KeysIdentify(Asked(p.queries))
    requires RootFromCache(h, roots2, q, t) && KeysIdentify(Asked(q.queries))
    requires FitsLengthPrefix(Combined(h, s)) && FitsLengthPrefix(Combined(h, t))
    requires CollisionFree(h, HashedForRoot(h, s) + HashedForRoot(h, t))
    ensures SameCommitted(s, t)
  {
    AcceptedRoot(env, roots1, prev1, block, proposer, maxGas, config);
    AcceptedRoot(env, roots2, prev2, block, proposer, maxGas, config);
    CachedRootsBind(h, p, s, q, t);
  }

  /** What the state root of a header is compared with: a block that is right in all else
      is accepted if and only if its header carries the root of the map behind the slot
      that serves the executed state. */
  lemma AcceptedIffSource(
      h: Hasher, env: Env, roots: Roots, p: History, prev: KvState, block: Block, proposer: string, maxGas: U64,
      config: Config, e: Exec)
    requires Execute(ParamsOf(env, proposer, block.header.baseFee, maxGas, config), config, prev, block.txs)
          == (e, Done)
    requires |block.header.proposerPk| == 32 && block.header.txRoot == roots.ofTxs(block.txs)
    requires block.header.gasUsed == e.gasUsed && block.header.receiptsRoot == roots.ofReceipts(e.receipts)
    requires RootFromCache(h, roots, p, e.state)
    ensures VerifyBlock(env, roots, prev, block, proposer, maxGas, config) == Accepted(e.state, e.receipts)
            <==> block.header.stateRoot == MerkleRoot(h, SourceIn(h, p, e.state))
  {
    AnswerIsRootOfSource(h, p.capacity, p.queries, p.at);
    AcceptedRoot(env, roots, prev, block, proposer, maxGas, config);
    if block.header.stateRoot == roots.ofState(e.state) {
      VerifyAssembled(env, roots, prev, block, proposer, maxGas, config, e, Done);
    }
  }

  /** So a node accepts a block whose header commits to another state than the executed one,
      whenever the two share a cache key and the root of the other was asked for before. */
  lemma StaleRootIsAccepted(
      h: Hasher, capacity: nat, env: Env, roots: Roots, prev: KvState, block: Block, proposer: string, maxGas: U64,
      config: Config, e: Exec, s: KvState)
    requires capacity > 0 && SameKey(h, s, e.state)
    requires Execute(ParamsOf(env, proposer, block.header.baseFee, maxGas, config), config, prev, block.txs)
          == (e, Done)
    requires |block.header.proposerPk| == 32 && block.header.txRoot == roots.ofTxs(block.txs)
    requires block.header.gasUsed == e.gasUsed && block.header.receiptsRoot == roots.ofReceipts(e.receipts)
    requires block.header.stateRoot == Root(h, s)
    requires RootFromCache(h, roots, History(capacity, [Ask(Combined(h, s)), Ask(Combined(h, e.state))], 1), e.state)
    ensures VerifyBlock(env, roots, prev, block, proposer, maxGas, config) == Accepted(e.state, e.receipts)
  {
    TwoStatesOneRoot(h, capacity, s, e.state);
    VerifyAssembled(env, roots, prev, block, proposer, maxGas, config, e, Done);
  }

  // ---- Two reachable states with one root ----------------------------------------------

  /** A payload that stores one word under a key. */
  predicate Sets(payload: string, k: string, v: string)
  {
    && Words(payload) == ["set", k, v]
    && !HasPrefix(payload, "staking:") && !HasPrefix(TrimStart(payload), "vm ")
  }

  /** Two transactions of one sender that compete for one nonce with payloads of equal
      length, storing different words under one key, lead from any state to two states that
      differ in that value alone. */
  lemma CompetingWrites(
      env: Env, s: KvState, a: Tx, b: Tx, k: string, v: string, w: string, baseFee: U64, proposer: string)
    requires b == a.(payload := b.payload, signature := b.signature) && |Utf8(a.payload)| == |Utf8(b.payload)|
    requires Sets(a.payload, k, v) && Sets(b.payload, k, w)
    requires Charged(env, s, a, baseFee) && Charged(env, s, b, baseFee) && a.nonce < U64_MAX
    ensures var (r, q) := (ApplyTx(env, s, a, baseFee, proposer), ApplyTx(env, s, b, baseFee, proposer));
            && r.Applied? && q.Applied? && r.receipt.success && q.receipt.success
            && k in r.state.kv && r.state.kv[k] == v && q.state == r.state.(kv := r.state.kv[k := w])
            && r.state.balances != map[] && r.state.nonces != map[]
  {
    var t := ChargeFees(s, a.from, proposer, Precheck(env, s, a, baseFee).fees);
    SetApplies(env, s, a, k, v, baseFee, proposer);
    SetApplies(env, s, b, k, w, baseFee, proposer);
    SameFees(env, s, a, b, baseFee);
    assert a.from in t.balances && a.from in t.nonces;
    assert t.kv[k := v][k := w] == t.kv[k := w];
  }

  lemma SameFees(env: Env, s: KvState, a: Tx, b: Tx, baseFee: U64)
    requires b == a.(payload := b.payload, signature := b.signature) && |Utf8(a.payload)| == |Utf8(b.payload)|
    requires Charged(env, s, a, baseFee) && Charged(env, s, b, baseFee)
    ensures Precheck(env, s, a, baseFee).fees == Precheck(env, s, b, baseFee).fees
  {
  }

  /** A charged transaction that stores a word succeeds and changes the store at that key. */
  lemma SetApplies(env: Env, s: KvState, tx: Tx, k: string, v: string, baseFee: U64, proposer: string)
    requires Sets(tx.payload, k, v) && Charged(env, s, tx, baseFee) && tx.nonce < U64_MAX
    ensures var r := ApplyTx(env, s, tx, baseFee, proposer);
            var t := ChargeFees(s, tx.from, proposer, Precheck(env, s, tx, baseFee).fees);
            r.Applied? && r.receipt.success && r.state == t.(kv := t.kv[k := v])
  {
    SetStores(ChargeFees(s, tx.from, proposer, Precheck(env, s, tx, baseFee).fees).kv, tx.payload, k, v);
  }

  /** The payload `set k v` is one of them, for every key and word without white space. */
  lemma SetPayload(k: string, v: string)
    requires Plain(k) && Plain(v)
    ensures Sets(JoinWords(["set", k, v]), k, v)
  {
    var s := JoinWords(["set", k, v]);
    assert Plain("set");
    WordsOfJoined(["set", k, v]);
    StartsWithFirst("set", [k, v]);
    PlainKv(s);
  }

  lemma StartsWithFirst(w: string, ws: seq<string>)
    ensures |JoinWords([w] + ws)| >= |w| && JoinWords([w] + ws)[..|w|] == w
  {
  }

  lemma PlainKv(s: string)
    requires |s| > 1 && s[0] == 's' && s[1] == 'e'
    ensures !HasPrefix(s, "staking:") && !HasPrefix(TrimStart(s), "vm ")
  {
  }

  /** One process that executes both gets one root for the two states, although the root
      commits to the stored value. */
  lemma CompetingWritesOneRoot(
      h: Hasher, capacity: nat, env: Env, s: KvState, a: Tx, b: Tx, k: string, v: string, w: string, baseFee: U64,
      proposer: string)
    requires capacity > 0 && v != w
    requires b == a.(payload := b.payload, signature := b.signature) && |Utf8(a.payload)| == |Utf8(b.payload)|
    requires Sets(a.payload, k, v) && Sets(b.payload, k, w)
    requires Charged(env, s, a, baseFee) && Charged(env, s, b, baseFee) && a.nonce < U64_MAX
    ensures var (r, q) := (ApplyTx(env, s, a, baseFee, proposer), ApplyTx(env, s, b, baseFee, proposer));
            && r.Applied? && q.Applied? && !SameCommitted(r.state, q.state)
            && var queries := [Ask(Combined(h, r.state)), Ask(Combined(h, q.state))];
               && AsksFor(h, History(capacity, queries, 1), q.state)
               && RootIn(h, History(capacity, queries, 1), q.state) == Root(h, r.state)
  {
    CompetingWrites(env, s, a, b, k, v, w, baseFee, proposer);
    var r := ApplyTx(env, s, a, baseFee, proposer);
    StoredValueIsNotKeyed(h, r.state, k, w);
    TwoStatesOneRoot(h, capacity, r.state, r.state.(kv := r.state.kv[k := w]));
    assert r.state.kv[k := w][k] == w;
  }
}
