/** The gas-capped block executor, sequential and parallel. */
module Executor {
  import opened MachineInts
  import opened Merkle
  import opened ChainState
  import opened Execution
  import opened StateMerge

  const QUANTUM_PARALLEL_THRESHOLD: nat := 16

  datatype Config = Config(parallelThreshold: nat, verifySignatures: bool, defaultMaxGas: U64)

  /** What stays fixed while a block is executed. */
  datatype Params = Params(env: Env, proposer: string, baseFee: U64, maxGas: U64, verifySignatures: bool)

  datatype Exec = Exec(state: KvState, hashes: set<Digest>, gasUsed: U64, receipts: seq<Receipt>)

  datatype Outcome = Done | DuplicateTx | GasOverflow | BadSignatures | TxFailed | EntanglementBroken | Aborted

  function Start(s: KvState): Exec { Exec(s, {}, 0, []) }

  /** `execute_tx`.  An overflowing transaction leaves its hash and its gas behind but
      neither its state nor its receipt. */
  function ExecuteTx(p: Params, e: Exec, tx: Tx): (Exec, Outcome)
  {
    var hash := p.env.txHash(tx);
    if hash in e.hashes then (e, DuplicateTx)
    else
      var e1 := e.(hashes := e.hashes + {hash});
      match ApplyTx(p.env, e.state, tx, p.baseFee, p.proposer)
      case Abort => (e1, Aborted)
      case Applied(receipt, state) =>
        var e2 := e1.(gasUsed := SatAdd64(e.gasUsed, receipt.gasUsed));
        if e2.gasUsed > p.maxGas then (e2, GasOverflow)
        else (e2.(state := state, receipts := e.receipts + [receipt]), Done)
  }

  /** `execute_batch`: stop at the first transaction that does not succeed. */
  function ExecuteBatch(p: Params, e: Exec, txs: seq<Tx>): (Exec, Outcome)
    decreases |txs|
  {
    if txs == [] then (e, Done)
    else
      var (e1, out) := ExecuteTx(p, e, txs[0]);
      if out != Done then (e1, out) else ExecuteBatch(p, e1, txs[1..])
  }

  lemma {:induction false} ExecuteBatchSnoc(p: Params, e: Exec, txs: seq<Tx>, tx: Tx)
    requires ExecuteBatch(p, e, txs).1 == Done
    ensures ExecuteBatch(p, e, txs + [tx]) == ExecuteTx(p, ExecuteBatch(p, e, txs).0, tx)
    decreases |txs|
  {
    if txs == [] {
      assert txs + [tx] == [tx] && [tx][1..] == [];
    } else {
      assert (txs + [tx])[1..] == txs[1..] + [tx];
      ExecuteBatchSnoc(p, ExecuteTx(p, e, txs[0]).0, txs[1..], tx);
    }
  }

  lemma {:induction false} ExecuteBatchStops(p: Params, e: Exec, txs: seq<Tx>, rest: seq<Tx>)
    requires ExecuteBatch(p, e, txs).1 != Done
    ensures ExecuteBatch(p, e, txs + rest) == ExecuteBatch(p, e, txs)
    decreases |txs|
  {
    assert (txs + rest)[1..] == txs[1..] + rest;
    if ExecuteTx(p, e, txs[0]).1 == Done {
      ExecuteBatchStops(p, ExecuteTx(p, e, txs[0]).0, txs[1..], rest);
    }
  }

  lemma Rejoined(txs: seq<Tx>, n: nat)
    requires n <= |txs|
    ensures txs[..n] + txs[n..] == txs
  {
  }

  /** What the workers return, each starting from the same base state. */
  function Workers(p: Params, base: KvState, txs: seq<Tx>): (rs: seq<ApplyResult>)
    ensures |rs| == |txs|
  {
    seq(|txs|, i requires 0 <= i < |txs| => ApplyTx(p.env, base, txs[i], p.baseFee, p.proposer))
  }

  /** The merge of worker results so far. */
  datatype Fold = Fold(state: KvState, receipts: seq<Receipt>, gas: U64, outcome: Outcome)

  function FoldOne(acc: Fold, r: ApplyResult): Fold
  {
    if acc.outcome != Done then acc
    else
      match r
      case Abort => acc.(outcome := Aborted)
      case Applied(receipt, partial) =>
        if !receipt.success then acc.(outcome := TxFailed)
        else if !Compatible(acc.state, partial) then acc.(outcome := EntanglementBroken)
        else Fold(Union(acc.state, partial), acc.receipts + [receipt], SatAdd64(acc.gas, receipt.gasUsed), Done)
  }

  function FoldAll(base: KvState, rs: seq<ApplyResult>): Fold
  {
    if rs == [] then Fold(base, [], 0, Done) else FoldOne(FoldAll(base, rs[..|rs| - 1]), rs[|rs| - 1])
  }

  predicate AllSigned(p: Params, txs: seq<Tx>)
  {
    forall i :: 0 <= i < |txs| ==> VerifySignature(p.env, txs[i]).Some?
  }

  predicate AnyAborts(rs: seq<ApplyResult>) { exists i :: 0 <= i < |rs| && rs[i].Abort? }

  /** `execute_batch_parallel`.  On success the gas of the batch replaces the gas used so
      far; hashes are not recorded. */
  function ExecuteParallel(p: Params, e: Exec, txs: seq<Tx>): (Exec, Outcome)
  {
    if |txs| <= QUANTUM_PARALLEL_THRESHOLD || !p.verifySignatures then ExecuteBatch(p, e, txs)
    else if !AllSigned(p, txs) then (e, BadSignatures)
    else if AnyAborts(Workers(p, e.state, txs)) then (e, Aborted)
    else
      var f := FoldAll(e.state, Workers(p, e.state, txs));
      if f.outcome != Done then (e, f.outcome)
      else if f.gas > p.maxGas then (e, GasOverflow)
      else (e.(state := f.state, gasUsed := f.gas, receipts := e.receipts + f.receipts), Done)
  }

  class TransactionExecutor {
    const params: Params
    var state: KvState
    var executedHashes: set<Digest>
    var gasUsed: U64
    var receipts: seq<Receipt>

    function View(): Exec
      reads this
    {
      Exec(state, executedHashes, gasUsed, receipts)
    }

    constructor (s: KvState, env: Env, proposer: string, baseFee: U64, maxGas: U64, config: Config)
      ensures View() == Start(s)
      ensures params == Params(env, proposer, baseFee,
                               if maxGas == 0 then config.defaultMaxGas else maxGas, config.verifySignatures)
    {
      params := Params(env, proposer, baseFee,
                       if maxGas == 0 then config.defaultMaxGas else maxGas, config.verifySignatures);
      state, executedHashes, gasUsed, receipts := s, {}, 0, [];
    }

    method RunTx(tx: Tx) returns (r: Outcome)
      modifies this
      ensures (View(), r) == ExecuteTx(params, old(View()), tx)
    {
      var hash := params.env.txHash(tx);
      if hash in executedHashes { return DuplicateTx; }
      executedHashes := executedHashes + {hash};
      var applied := ApplyTx(params.env, state, tx, params.baseFee, params.proposer);
      if applied.Abort? { return Aborted; }
      gasUsed := SatAdd64(gasUsed, applied.receipt.gasUsed);
      if gasUsed > params.maxGas { return GasOverflow; }
      state := applied.state;
      receipts := receipts + [applied.receipt];
      return Done;
    }

    method RunBatch(txs: seq<Tx>) returns (r: Outcome)
      modifies this
      ensures (View(), r) == ExecuteBatch(params, old(View()), txs)
    {
      r := Done;
      assert txs[..0] == [];
      for i := 0 to |txs|
        invariant r == Done && (View(), r) == ExecuteBatch(params, old(View()), txs[..i])
      {
        ExecuteBatchSnoc(params, old(View()), txs[..i], txs[i]);
        assert txs[..i + 1] == txs[..i] + [txs[i]];
        r := RunTx(txs[i]);
        if r != Done {
          Rejoined(txs, i + 1);
          ExecuteBatchStops(params, old(View()), txs[..i + 1], txs[i + 1..]);
          return;
        }
      }
      assert txs[..|txs|] == txs;
    }

    method RunParallel(txs: seq<Tx>) returns (r: Outcome)
      modifies this
      ensures (View(), r) == ExecuteParallel(params, old(View()), txs)
    {
      if |txs| <= QUANTUM_PARALLEL_THRESHOLD || !params.verifySignatures {
        r := RunBatch(txs);
        return;
      }
      if !AllSigned(params, txs) { return BadSignatures; }
      var results := Workers(params, state, txs);
      if AnyAborts(results) { return Aborted; }
      var f := FoldWorkers(state, results);
      if f.outcome != Done { return f.outcome; }
      if f.gas > params.maxGas { return GasOverflow; }
      state, gasUsed, receipts := f.state, f.gas, receipts + f.receipts;
      return Done;
    }
  }

  method FoldWorker(acc: Fold, r: ApplyResult) returns (f: Fold)
    ensures f == FoldOne(acc, r)
  {
    if acc.outcome != Done { return acc; }
    if r.Abort? { return acc.(outcome := Aborted); }
    if !r.receipt.success { return acc.(outcome := TxFailed); }
    var ok, merged := Merge(acc.state, r.state);
    if !ok { return acc.(outcome := EntanglementBroken); }
    f := Fold(merged, acc.receipts + [r.receipt], SatAdd64(acc.gas, r.receipt.gasUsed), Done);
  }

  /** Merge worker results in order, stopping at the first that cannot be merged. */
  method FoldWorkers(base: KvState, rs: seq<ApplyResult>) returns (f: Fold)
    ensures f == FoldAll(base, rs)
  {
    f := Fold(base, [], 0, Done);
    for i := 0 to |rs|
      invariant f == FoldAll(base, rs[..i])
    {
      assert rs[..i + 1][..i] == rs[..i];
      f := FoldWorker(f, rs[i]);
      if f.outcome != Done {
        FoldStops(base, rs, i + 1);
        return;
      }
    }
    assert rs[..|rs|] == rs;
  }

  lemma {:induction false} FoldStops(base: KvState, rs: seq<ApplyResult>, i: nat)
    requires i <= |rs| && FoldAll(base, rs[..i]).outcome != Done
    ensures FoldAll(base, rs) == FoldAll(base, rs[..i])
    decreases |rs|
  {
    if i == |rs| {
      assert rs[..i] == rs;
    } else {
      assert rs[..|rs| - 1][..i] == rs[..i];
      FoldStops(base, rs[..|rs| - 1], i);
    }
  }
}
